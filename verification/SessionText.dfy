/** What the parser of sessions.md makes of any text, said by positions in that text. */
module SessionText {
  import opened Outcomes
  import opened Text
  import opened WordText
  import opened Sessions

  /** The pattern stands in the text at the position. */
  predicate At(s: string, i: nat, m: string) {
    i <= |s| && m <= s[i..]
  }

  predicate LineStarts(s: string, i: nat) {
    i == 0 || (i <= |s| && s[i - 1] == '\n')
  }

  /** The stretch from lo to hi without the whitespace at its end: it stops at cut. */
  predicate EndsAt(s: string, lo: nat, cut: nat, hi: nat) {
    lo <= cut <= hi <= |s| && AllSpace(s, cut, hi) && (lo < cut ==> !IsSpace(s[cut - 1]))
  }

  // ---------- Fields ----------

  predicate FirstAt(s: string, i: nat, m: string) {
    At(s, i, m) && forall j :: 0 <= j < i ==> !At(s, j, m)
  }

  /** The value that starts at lo goes up to hi: the first later newline with two stars behind
    * it, or the end. */
  predicate ValueUpTo(s: string, lo: nat, hi: nat) {
    lo < hi <= |s| && (hi == |s| || At(s, hi, "\n**")) && forall j :: lo < j < hi ==> !At(s, j, "\n**")
  }

  /** The first marker of the field is at i, its value is the stretch from lo to hi, and ends at
    * cut when the whitespace is taken off. */
  predicate FieldAt(block: string, name: string, i: nat, lo: nat, cut: nat, hi: nat) {
    var from := i + |name| + 5;
    && FirstAt(block, i, "**" + name + "**:") && from <= lo && AllSpace(block, from, lo)
    && (if lo == |block| then hi == lo else lo < |block| && !IsSpace(block[lo]) && ValueUpTo(block, lo, hi))
    && EndsAt(block, lo, cut, hi)
  }

  ghost predicate FieldIs(block: string, name: string, v: string) {
    || (v == "" && forall i: nat :: !At(block, i, "**" + name + "**:"))
    || exists i: nat, lo: nat, cut: nat, hi: nat :: FieldAt(block, name, i, lo, cut, hi) && v == block[lo..cut]
  }

  lemma AtTail(s: string, k: nat, i: nat, m: string)
    requires k <= |s|
    ensures At(s[k..], i, m) <==> At(s, k + i, m)
  {
    if k + i <= |s| { assert s[k..][i..] == s[k + i..]; }
  }

  lemma {:induction false} AfterFinds(s: string, m: string) returns (i: nat)
    ensures After(s, m).Some? ==> FirstAt(s, i, m) && i + |m| <= |s| && After(s, m).value == s[i + |m|..]
    ensures After(s, m).None? ==> forall j: nat :: !At(s, j, m)
  {
    assert s[0..] == s;
    if m <= s {
      i := 0;
    } else if s == "" {
      i := 0;
    } else {
      var k := AfterFinds(s[1..], m);
      i := k + 1;
      forall j: nat ensures At(s, j, m) <==> j > 0 && At(s[1..], j - 1, m) {
        if j > 0 { AtTail(s, 1, j - 1, m); }
      }
      if After(s, m).Some? { assert s[1..][k + |m|..] == s[i + |m|..]; }
    }
  }

  lemma {:induction false} ValueEndsFirst(s: string, lo: nat)
    requires lo < |s|
    ensures ValueUpTo(s, lo, lo + ValueEnd(s[lo..]))
    decreases |s| - lo
  {
    var t := s[lo..];
    assert t[1..] == s[lo + 1..];
    if |t| > 1 && !("\n**" <= t[1..]) {
      ValueEndsFirst(s, lo + 1);
      assert !At(s, lo + 1, "\n**");
    }
  }

  /** Trimming a stretch that starts with no space only shortens it. */
  lemma StripEnds(s: string, lo: nat, hi: nat) returns (cut: nat)
    requires lo < hi <= |s| && !IsSpace(s[lo])
    ensures EndsAt(s, lo, cut, hi) && Strip(s[lo..hi]) == s[lo..cut]
  {
    hide IsSpace, RStrip;
    var t := s[lo..hi];
    var r := RStrip(t);
    assert t[0] == s[lo] && LStrip(t) == t;
    cut := lo + |r|;
    assert t[..|r|] == s[lo..cut];
    forall i | cut <= i < hi ensures IsSpace(s[i]) { assert s[i] == t[i - lo]; }
  }

  lemma LStripStarts(s: string, from: nat) returns (lo: nat)
    requires from <= |s|
    ensures from <= lo <= |s| && AllSpace(s, from, lo) && LStrip(s[from..]) == s[lo..] && (lo < |s| ==> !IsSpace(s[lo]))
  {
    hide IsSpace, LStrip;
    var t := s[from..];
    lo := |s| - |LStrip(t)|;
    assert LStrip(t) == t[|t| - |LStrip(t)|..] == s[lo..];
    forall i | from <= i < lo ensures IsSpace(s[i]) { assert s[i] == t[i - from]; }
  }

  lemma ValueFoundAt(s: string, lo: nat) returns (cut: nat, hi: nat)
    requires lo < |s| && !IsSpace(s[lo])
    ensures ValueUpTo(s, lo, hi) && EndsAt(s, lo, cut, hi) && lo <= cut <= hi <= |s|
    ensures Strip(s[lo..][..ValueEnd(s[lo..])]) == s[lo..cut]
  {
    hide IsSpace, Strip, At;
    ValueEndsFirst(s, lo);
    var n := ValueEnd(s[lo..]);
    hi := lo + n;
    assert s[lo..][..n] == s[lo..hi];
    cut := StripEnds(s, lo, hi);
  }

  lemma FieldStep(block: string, name: string)
    ensures
      var rest := After(block, "**" + name + "**:");
      Field(block, name) ==
      if rest == None || LStrip(rest.value) == "" then ""
      else Strip(LStrip(rest.value)[..ValueEnd(LStrip(rest.value))])
  {
    hide After, LStrip, Strip, ValueEnd;
    assert Marker(name) == "**" + name + "**:";
  }

  /** A field is the trimmed text between its first marker and the next newline with two stars
    * behind it, or the end of the block. */
  lemma FieldExact(block: string, name: string)
    ensures FieldIs(block, name, Field(block, name))
  {
    hide IsSpace, LStrip, Strip, At, ValueUpTo, After, ValueEnd, Field;
    var m := "**" + name + "**:";
    FieldStep(block, name);
    var i := AfterFinds(block, m);
    if After(block, m).Some? {
      var lo := LStripStarts(block, i + |m|);
      if lo == |block| {
        assert FieldAt(block, name, i, lo, lo, lo);
      } else {
        var cut, hi := ValueFoundAt(block, lo);
        assert FieldAt(block, name, i, lo, cut, hi);
      }
    }
  }

  // ---------- Key changes ----------

  /** All whitespace from lo on ends at hi. */
  predicate SpaceRun(s: string, lo: nat, hi: nat) {
    lo <= hi <= |s| && AllSpace(s, lo, hi) && (hi < |s| ==> !IsSpace(s[hi]))
  }

  /** The last newline between lo and hi is in front of a. */
  predicate LastNewline(s: string, lo: nat, a: nat, hi: nat) {
    lo < a <= hi <= |s| && s[a - 1] == '\n' && forall j :: a <= j < hi ==> s[j] != '\n'
  }

  /** The whitespace behind the marker at i ends at w and has a newline, the last one in front of a. */
  predicate OpensList(s: string, i: nat, a: nat, w: nat) {
    At(s, i, "**Key changes**:") && SpaceRun(s, i + 16, w) && LastNewline(s, i + 16, a, w)
  }

  /** A bullet line: a dash, a space and some text. */
  predicate BulletAt(s: string, p: nat) {
    At(s, p, "- ") && p + 2 < |s| && s[p + 2] != '\n'
  }

  /** All lines from a to b are bullet lines, and the next one is not. */
  predicate BulletRun(s: string, a: nat, b: nat) {
    && a <= b <= |s|
    && (forall p :: a <= p < b && (p == a || s[p - 1] == '\n') ==> BulletAt(s, p))
    && (b == |s| || ((b == a || s[b - 1] == '\n') && !BulletAt(s, b)))
  }

  /** The first marker with a list is at i, and the list is the stretch from a to b. */
  ghost predicate ListAt(block: string, i: nat, a: nat, w: nat, cut: nat, b: nat) {
    && OpensList(block, i, a, w) && (forall j: nat, c: nat, x: nat :: j < i ==> !OpensList(block, j, c, x))
    && BulletRun(block, a, b) && EndsAt(block, a, cut, b)
  }

  ghost predicate KeysAre(block: string, v: string) {
    || (v == "" && forall i: nat, a: nat, w: nat :: !OpensList(block, i, a, w))
    || exists i: nat, a: nat, w: nat, cut: nat, b: nat :: ListAt(block, i, a, w, cut, b) && v == block[a..cut]
  }

  lemma SpacesTail(s: string, k: nat, lo: nat, hi: nat)
    requires k <= |s|
    ensures AllSpace(s[k..], lo, hi) <==> AllSpace(s, k + lo, k + hi)
  {
    hide IsSpace;
    var t := s[k..];
    if AllSpace(t, lo, hi) {
      forall i | k + lo <= i < k + hi ensures IsSpace(s[i]) { assert s[i] == t[i - k]; }
    }
    if AllSpace(s, k + lo, k + hi) {
      forall i | lo <= i < hi ensures IsSpace(t[i]) { assert t[i] == s[k + i]; }
    }
  }

  lemma RunTail(s: string, k: nat, lo: nat, hi: nat)
    requires k <= |s|
    ensures SpaceRun(s[k..], lo, hi) <==> SpaceRun(s, k + lo, k + hi)
  {
    hide IsSpace;
    SpacesTail(s, k, lo, hi);
    if hi < |s| - k { assert s[k..][hi] == s[k + hi]; }
  }

  lemma NewlineTail(s: string, k: nat, lo: nat, a: nat, hi: nat)
    requires k <= |s|
    ensures LastNewline(s[k..], lo, a, hi) <==> LastNewline(s, k + lo, k + a, k + hi)
  {
    var t := s[k..];
    if 0 < a && a <= hi && hi <= |t| {
      assert t[a - 1] == s[k + a - 1];
      if LastNewline(t, lo, a, hi) {
        forall j | k + a <= j < k + hi ensures s[j] != '\n' { assert s[j] == t[j - k]; }
      }
      if LastNewline(s, k + lo, k + a, k + hi) {
        forall j | a <= j < hi ensures t[j] != '\n' { assert t[j] == s[k + j]; }
      }
    }
  }

  lemma RunCons(s: string, hi: nat)
    requires s != "" && SpaceRun(s, 0, hi)
    ensures hi > 0 <==> IsSpace(s[0])
    ensures hi > 0 ==> SpaceRun(s[1..], 0, hi - 1)
  {
    hide IsSpace;
    if hi > 0 {
      assert AllSpace(s, 1, hi);
      RunTail(s, 1, 0, hi - 1);
    }
  }

  /** Behind the last newline of the leading whitespace. */
  lemma {:induction false} LastBreak(s: string, hi: nat)
    requires SpaceRun(s, 0, hi)
    ensures AfterLastBreak(s).None? ==> forall j :: 0 <= j < hi ==> s[j] != '\n'
    ensures AfterLastBreak(s).Some? ==>
      exists a: nat :: LastNewline(s, 0, a, hi) && AfterLastBreak(s).value == s[a..]
  {
    hide IsSpace, AllSpace;
    if s != "" {
      RunCons(s, hi);
      if hi > 0 {
        var t := s[1..];
        LastBreak(t, hi - 1);
        forall j | 1 <= j < |s| ensures s[j] == t[j - 1] {}
        if AfterLastBreak(t).Some? {
          var a: nat :| LastNewline(t, 0, a, hi - 1) && AfterLastBreak(t).value == t[a..];
          NewlineTail(s, 1, 0, a, hi - 1);
          assert t[a..] == s[a + 1..];
          assert LastNewline(s, 0, a + 1, hi);
        } else if s[0] == '\n' {
          assert LastNewline(s, 0, 1, hi);
        }
      }
    }
  }

  lemma BulletsStep(s: string)
    ensures Bullets(s) ==
      if !BulletAt(s, 0) then ""
      else if NewlineAt(s) == |s| then s
      else s[..NewlineAt(s) + 1] + Bullets(s[NewlineAt(s) + 1..])
  {
    hide NewlineAt;
    AtFront(s, "- ");
  }

  /** One more bullet line in front of a run. */
  lemma LongerBulletRun(s: string, n: nat, r: nat)
    requires n < |s| && n == NewlineAt(s) && BulletAt(s, 0) && BulletRun(s, n + 1, n + 1 + r)
    ensures BulletRun(s, 0, n + 1 + r)
  {
    hide BulletAt, NewlineAt;
  }

  lemma {:induction false} BulletsRun(s: string)
    ensures Bullets(s) == s[..|Bullets(s)|] && BulletRun(s, 0, |Bullets(s)|)
    decreases |s|
  {
    hide BulletAt, Bullets, BulletRun, NewlineAt;
    BulletsStep(s);
    if !BulletAt(s, 0) {
      EmptyRun(s);
    } else {
      var n := NewlineAt(s);
      if n == |s| {
        OneBulletRun(s);
      } else {
        var rest := s[n + 1..];
        BulletsRun(rest);
        var r := |Bullets(rest)|;
        RunEndTail(s, n + 1, 0, r);
        assert s[..n + 1] + rest[..r] == s[..n + 1 + r];
        LongerBulletRun(s, n, r);
      }
    }
  }

  lemma EmptyRun(s: string)
    requires !BulletAt(s, 0)
    ensures BulletRun(s, 0, 0)
  {
    hide BulletAt;
  }

  lemma OneBulletRun(s: string)
    requires BulletAt(s, 0) && NewlineAt(s) == |s|
    ensures BulletRun(s, 0, |s|)
  {
    hide BulletAt, NewlineAt;
  }

  lemma AtFront(s: string, m: string)
    ensures At(s, 0, m) <==> m <= s
  {
    assert s[0..] == s;
  }

  lemma BulletTail(s: string, k: nat, p: nat)
    requires k <= |s|
    ensures BulletAt(s[k..], p) <==> BulletAt(s, k + p)
  {
    hide At;
    AtTail(s, k, p, "- ");
  }

  lemma OpensTail(s: string, k: nat, i: nat, a: nat, w: nat)
    requires k <= |s|
    ensures OpensList(s[k..], i, a, w) <==> OpensList(s, k + i, k + a, k + w)
  {
    hide At, SpaceRun, LastNewline;
    AtTail(s, k, i, "**Key changes**:");
    RunTail(s, k, i + 16, w);
    NewlineTail(s, k, i + 16, a, w);
  }

  lemma RunEndTail(s: string, k: nat, a: nat, b: nat)
    requires k <= |s|
    ensures BulletRun(s[k..], a, b) ==> BulletRun(s, k + a, k + b)
  {
    hide BulletAt;
    var t := s[k..];
    if BulletRun(t, a, b) {
      forall p: nat ensures BulletAt(t, p) <==> BulletAt(s, k + p) { BulletTail(s, k, p); }
      forall p | k + a <= p < k + b && (p == k + a || s[p - 1] == '\n') ensures BulletAt(s, p) {
        if p > k + a { assert t[p - k - 1] == s[p - 1]; }
        assert BulletAt(t, p - k);
      }
      if b > a { assert t[b - 1] == s[k + b - 1]; }
    }
  }

  lemma CharAt(s: string, i: nat, m: string, k: nat)
    requires At(s, i, m) && k < |m|
    ensures i + k < |s| && s[i + k] == m[k]
  {
    assert s[i..][k] == s[i + k];
  }

  lemma OneColon(k: nat)
    requires k < 16
    ensures "**Key changes**:"[k] == ':' <==> k == 15
  {}

  /** Two markers never overlap. */
  lemma MarkersApart(s: string, i: nat, j: nat)
    requires At(s, i, "**Key changes**:") && At(s, j, "**Key changes**:") && i <= j < i + 16
    ensures i == j
  {
    hide At;
    CharAt(s, i, "**Key changes**:", 15);
    CharAt(s, j, "**Key changes**:", 15 - (j - i));
    OneColon(15 - (j - i));
  }

  /** The trimmed list behind the marker at i. */
  lemma ListFound(block: string, i: nat, a: nat, w: nat) returns (cut: nat, b: nat)
    requires OpensList(block, i, a, w)
    ensures BulletRun(block, a, b) && EndsAt(block, a, cut, b) && Strip(Bullets(block[a..])) == block[a..cut]
  {
    hide IsSpace, OpensList, Strip, Bullets, BulletAt;
    assert a <= |block| by { assert OpensList(block, i, a, w); OpensInside(block, i, a, w); }
    BulletsRun(block[a..]);
    var n := |Bullets(block[a..])|;
    b := a + n;
    RunEndTail(block, a, 0, n);
    assert block[a..][..n] == block[a..b];
    if n == 0 {
      cut := a;
      StripNothing();
    } else {
      BulletIsNoSpace(block, a);
      cut := StripEnds(block, a, b);
    }
  }

  lemma OpensInside(s: string, i: nat, a: nat, w: nat)
    requires OpensList(s, i, a, w)
    ensures i + 16 < a <= |s|
  {}

  lemma StripNothing()
    ensures Strip("") == ""
  {}

  lemma BulletIsNoSpace(s: string, p: nat)
    requires BulletAt(s, p)
    ensures p < |s| && !IsSpace(s[p])
  {
    assert s[p..][0] == '-';
  }

  lemma ListIsFirst(block: string, i: nat, a: nat, w: nat)
    requires FirstAt(block, i, "**Key changes**:") && OpensList(block, i, a, w)
    ensures a <= |block| && KeysAre(block, Strip(Bullets(block[a..])))
  {
    hide At, OpensList, Strip, Bullets, BulletRun, EndsAt;
    OpensInside(block, i, a, w);
    var cut, b := ListFound(block, i, a, w);
    CutInside(block, a, cut, b);
    forall j: nat, c: nat, x: nat | j < i ensures !OpensList(block, j, c, x) { OpensHere(block, j, c, x); }
    assert ListAt(block, i, a, w, cut, b);
  }

  lemma CutInside(s: string, lo: nat, cut: nat, hi: nat)
    requires EndsAt(s, lo, cut, hi)
    ensures lo <= cut <= |s|
  {}

  lemma RunEnd(s: string, from: nat) returns (w: nat)
    requires from <= |s|
    ensures from <= w <= |s| && SpaceRun(s, from, w)
  {
    hide IsSpace;
    w := LStripStarts(s, from);
  }

  /** What the whitespace behind the marker at i says about a list. */
  lemma MarkerDecides(block: string, i: nat) returns (a: nat, w: nat)
    requires At(block, i, "**Key changes**:") && i + 16 <= |block|
    ensures AfterLastBreak(block[i + 16..]).Some? ==>
      OpensList(block, i, a, w) && a <= |block| && AfterLastBreak(block[i + 16..]).value == block[a..]
    ensures AfterLastBreak(block[i + 16..]).None? ==>
      SpaceRun(block, i + 16, w) && forall q :: i + 16 <= q < w ==> block[q] != '\n'
  {
    hide IsSpace, At, AfterLastBreak, AllSpace, SpaceRun;
    var rest := block[i + 16..];
    w := RunEnd(block, i + 16);
    var n := w - i - 16;
    RunTail(block, i + 16, 0, n);
    LastBreak(rest, n);
    if AfterLastBreak(rest).Some? {
      var b: nat :| LastNewline(rest, 0, b, n) && AfterLastBreak(rest).value == rest[b..];
      NewlineTail(block, i + 16, 0, b, n);
      a := i + 16 + b;
      OpensInside(block, i, a, w);
      assert rest[b..] == block[a..];
    } else {
      a := 0;
      forall q | i + 16 <= q < w ensures block[q] != '\n' { assert block[q] == rest[q - i - 16]; }
    }
  }

  lemma KeyChangesStep(block: string)
    ensures
      var rest := After(block, "**Key changes**:");
      KeyChanges(block) ==
      if rest == None then ""
      else if AfterLastBreak(rest.value) == None then KeyChanges(rest.value)
      else Strip(Bullets(AfterLastBreak(rest.value).value))
  {
    hide After, AfterLastBreak, Bullets, Strip;
    assert Marker("Key changes") == "**Key changes**:";
  }

  /** The key changes are the run of bullet lines behind the first marker that has a newline in
    * the whitespace behind it. */
  lemma {:induction false} KeyChangesExact(block: string)
    ensures KeysAre(block, KeyChanges(block))
    decreases |block|
  {
    hide At, OpensList, Strip, Bullets, After, AfterLastBreak, KeysAre, KeyChanges, SpaceRun;
    KeyChangesStep(block);
    var i := AfterFinds(block, "**Key changes**:");
    if After(block, "**Key changes**:").None? {
      NoKeyMarker(block);
    } else {
      var rest := block[i + 16..];
      var a, w := MarkerDecides(block, i);
      if AfterLastBreak(rest).Some? {
        ListIsFirst(block, i, a, w);
      } else {
        KeyChangesExact(rest);
        forall j: nat, c: nat, x: nat | OpensList(block, j, c, x) ensures j >= i + 16 { NotYet(block, i, w, j, c, x); }
        KeysBehind(block, i + 16, KeyChanges(rest));
      }
    }
  }

  lemma NoKeyMarker(block: string)
    requires forall j: nat :: !At(block, j, "**Key changes**:")
    ensures KeysAre(block, "")
  {
    hide At, SpaceRun, LastNewline;
  }

  lemma OpensHere(s: string, i: nat, a: nat, w: nat)
    ensures OpensList(s, i, a, w) ==> At(s, i, "**Key changes**:")
  {}

  /** The first marker has no list, and the next one is behind it. */
  lemma NotYet(block: string, i: nat, w: nat, j: nat, c: nat, x: nat)
    requires FirstAt(block, i, "**Key changes**:") && SpaceRun(block, i + 16, w)
    requires forall q :: i + 16 <= q < w ==> block[q] != '\n'
    requires OpensList(block, j, c, x)
    ensures j >= i + 16
  {
    hide At, IsSpace;
    if i <= j < i + 16 { MarkersApart(block, i, j); }
  }

  lemma KeysBehind(s: string, k: nat, v: string)
    requires k <= |s| && KeysAre(s[k..], v)
    requires forall j: nat, c: nat, x: nat :: OpensList(s, j, c, x) ==> j >= k
    ensures KeysAre(s, v)
  {
    hide OpensList, BulletRun, AllSpace;
    var t := s[k..];
    forall j: nat, c: nat, x: nat | OpensList(s, j, c, x)
      ensures j >= k && c >= k && x >= k && OpensList(t, j - k, c - k, x - k)
    {
      OpensOrder(s, j, c, x);
      OpensTail(s, k, j - k, c - k, x - k);
    }
    if !(v == "" && forall i: nat, a: nat, w: nat :: !OpensList(t, i, a, w)) {
      var i: nat, a: nat, w: nat, cut: nat, b: nat :| ListAt(t, i, a, w, cut, b) && v == t[a..cut];
      OpensTail(s, k, i, a, w);
      RunEndTail(s, k, a, b);
      EndsTail(s, k, a, cut, b);
      assert ListAt(s, k + i, k + a, k + w, k + cut, k + b);
    }
  }

  lemma OpensOrder(s: string, i: nat, a: nat, w: nat)
    requires OpensList(s, i, a, w)
    ensures i < a <= w
  {}

  lemma EndsTail(s: string, k: nat, lo: nat, cut: nat, hi: nat)
    requires k <= |s| && EndsAt(s[k..], lo, cut, hi)
    ensures EndsAt(s, k + lo, k + cut, k + hi) && s[k..][lo..cut] == s[k + lo..k + cut]
  {
    hide IsSpace;
    SpacesTail(s, k, cut, hi);
    if lo < cut { assert s[k..][cut - 1] == s[k + cut - 1]; }
  }

  // ---------- The whole file ----------

  predicate HeaderAt(s: string, p: nat) {
    LineStarts(s, p) && At(s, p, "## Session ")
  }

  /** From the position on, the blocks make up the text, and each but the first starts where a
    * line starts with the header; no other line does. */
  predicate CutInto(s: string, blocks: seq<string>, from: nat) {
    from <= |s| &&
    if blocks == [] then from == |s|
    else
      var to := from + |blocks[0]|;
      && from < to <= |s| && blocks[0] == s[from..to]
      && (to == |s| || HeaderAt(s, to)) && (forall p :: from < p < to ==> !HeaderAt(s, p))
      && CutInto(s, blocks[1..], to)
  }

  lemma NoLineStarts(s: string, from: nat)
    requires from <= |s|
    ensures forall p :: from < p <= from + NewlineAt(s[from..]) ==> !LineStarts(s, p)
  {
    var t := s[from..];
    forall p | from < p <= from + NewlineAt(t) ensures !LineStarts(s, p) { assert s[p - 1] == t[p - 1 - from]; }
  }

  /** Where the next line starts, and whether it is a header. */
  lemma NextLine(s: string, from: nat) returns (next: nat)
    requires from < |s| && NewlineAt(s[from..]) < |s| - from
    ensures next == from + NewlineAt(s[from..]) + 1 <= |s| && LineStarts(s, next)
    ensures HeaderAt(s, next) <==> HEAD <= s[next..]
    ensures NextHeader(s[from..]) == next - from + if HeaderAt(s, next) then 0 else NextHeader(s[next..])
  {
    hide NewlineAt;
    var t := s[from..];
    var n := NewlineAt(t);
    next := from + n + 1;
    assert t[n] == s[from + n] && t[n + 1..] == s[next..];
  }

  lemma {:induction false} HeaderComesNext(s: string, from: nat)
    requires from < |s|
    ensures
      var to := from + NextHeader(s[from..]);
      from < to <= |s| && (to == |s| || HeaderAt(s, to)) && forall p :: from < p < to ==> !HeaderAt(s, p)
    decreases |s| - from
  {
    hide NewlineAt, NextHeader, LineStarts, At;
    NoLineStarts(s, from);
    if NewlineAt(s[from..]) == |s| - from {
      LastHeader(s[from..]);
    } else {
      var next := NextLine(s, from);
      if !HeaderAt(s, next) {
        if next < |s| { HeaderComesNext(s, next); } else { LastHeader(s[next..]); }
      }
    }
  }

  lemma LastHeader(t: string)
    requires NewlineAt(t) == |t|
    ensures NextHeader(t) == |t|
  {}

  lemma {:induction false} BlocksCut(s: string, from: nat)
    requires from <= |s|
    ensures CutInto(s, Blocks(s[from..]), from)
    decreases |s| - from
  {
    hide NextHeader, HeaderAt;
    var t := s[from..];
    if t != "" {
      HeaderComesNext(s, from);
      var to := from + NextHeader(t);
      assert t[..NextHeader(t)] == s[from..to] && t[NextHeader(t)..] == s[to..];
      BlocksCut(s, to);
      assert ([s[from..to]] + Blocks(s[to..]))[1..] == Blocks(s[to..]);
    }
  }

  /** The block starts with the header and an id of n characters that goes up to the next space. */
  predicate IdEnds(block: string, n: nat) {
    && At(block, 0, "## Session ") && 11 < n <= |block|
    && (forall i :: 11 <= i < n ==> !IsSpace(block[i])) && (n < |block| ==> IsSpace(block[n]))
  }

  /** The row holds what the block says. */
  ghost predicate RowOf(block: string, row: Row) {
    && (exists n: nat :: IdEnds(block, n) && row.id == block[11..n])
    && FieldIs(block, "Theme", row.theme) && FieldIs(block, "Decisions", row.decisions)
    && KeysAre(block, row.keyChanges) && FieldIs(block, "Next session", row.nextSession)
    && (FieldIs(block, "In-flight", row.inFlight) || (FieldIs(block, "In-flight", "") && row.inFlight == "NONE"))
    && row.inFlight != ""
  }

  /** A block with a header and an id gives its row, any other one gives none. */
  ghost predicate RowsOf(blocks: seq<string>, rows: seq<Row>) {
    if blocks == [] then rows == []
    else
      var block := Strip(blocks[0]);
      if exists n: nat :: IdEnds(block, n) then
        rows != [] && RowOf(block, rows[0]) && RowsOf(blocks[1..], rows[1..])
      else RowsOf(blocks[1..], rows)
  }

  lemma HeaderIsHead(block: string)
    ensures HEAD <= block <==> At(block, 0, "## Session ")
    ensures |HEAD| == 11
  {
    assert block[0..] == block;
  }

  lemma IdFound(block: string)
    requires HEAD <= block
    ensures var n := 11 + WordEnd(block[11..]);
      && n <= |block| && block[11..][..n - 11] == block[11..n]
      && (n > 11 ==> IdEnds(block, n)) && (n == 11 ==> forall k: nat :: !IdEnds(block, k))
  {
    hide IsSpace, WordEnd;
    HeaderIsHead(block);
    var t := block[11..];
    var n := 11 + WordEnd(t);
    forall i | 11 <= i < n ensures !IsSpace(block[i]) { assert block[i] == t[i - 11]; }
    if n < |block| { assert block[n] == t[n - 11]; }
  }

  lemma BlockExact(raw: string)
    ensures ParseBlock(raw).Some? <==> exists n: nat :: IdEnds(Strip(raw), n)
    ensures ParseBlock(raw).Some? ==> RowOf(Strip(raw), ParseBlock(raw).value)
  {
    hide IsSpace, Strip, At, Field, KeyChanges, FieldIs, KeysAre, WordEnd;
    var block := Strip(raw);
    HeaderIsHead(block);
    if HEAD <= block {
      IdFound(block);
      FieldExact(block, "Theme");
      FieldExact(block, "Decisions");
      KeyChangesExact(block);
      FieldExact(block, "Next session");
      FieldExact(block, "In-flight");
    }
  }

  lemma {:induction false} RowsExact(blocks: seq<string>)
    ensures RowsOf(blocks, ParseBlocks(blocks))
  {
    hide ParseBlock, Strip, RowOf, IdEnds;
    if blocks != [] {
      BlockExact(blocks[0]);
      RowsExact(blocks[1..]);
      ParseBlocksCons(blocks[0], blocks[1..]);
      assert [blocks[0]] + blocks[1..] == blocks;
      var rest := ParseBlocks(blocks[1..]);
      var row := ParseBlock(blocks[0]);
      if row.Some? { assert ([row.value] + rest)[1..] == rest; } else { assert [] + rest == rest; }
    }
  }

  /** What the parser reads in a text: its rows are those of the blocks of the text, in order. */
  lemma ParseExact(text: string)
    ensures exists blocks :: CutInto(text, blocks, 0) && RowsOf(blocks, Parse(text))
  {
    hide CutInto, RowsOf, Blocks, ParseBlocks;
    assert text[0..] == text;
    BlocksCut(text, 0);
    RowsExact(Blocks(text));
  }

  // ---------- The printed bullets ----------

  /** From the position on, the lines make up the text: each is a stretch without line breaks,
    * and behind it there is one break, two characters long for a return with a newline. */
  predicate LinesIn(s: string, lines: seq<string>, from: nat) {
    from <= |s| &&
    if lines == [] then from == |s|
    else
      var to := from + |lines[0]|;
      && from < |s| && to <= |s| && lines[0] == s[from..to] && (forall i :: from <= i < to ==> !IsLineBreak(s[i]))
      && (to == |s| ==> |lines| == 1)
      && (to < |s| ==> IsLineBreak(s[to]) && LinesIn(s, lines[1..], to + if At(s, to, "\r\n") then 2 else 1))
  }

  lemma NextStart(s: string, to: nat)
    requires to < |s|
    ensures At(s, to, "\r\n") <==> to + 1 < |s| && s[to] == '\r' && s[to + 1] == '\n'
  {
    if to + 1 < |s| {
      assert s[to..][..2] == [s[to], s[to + 1]];
      assert "\r\n" <= s[to..] <==> "\r\n" == s[to..][..2];
    }
  }

  lemma SplitLinesStep(t: string)
    requires t != ""
    ensures
      var n := LineLength(t);
      SplitLines(t) == [t[..n]] +
        if n == |t| then [] else SplitLines(t[n + if n + 1 < |t| && t[n] == '\r' && t[n + 1] == '\n' then 2 else 1..])
  {
    hide IsLineBreak, LineLength;
    var n := LineLength(t);
    if n == |t| { assert t[..n] == t; assert [t] + [] == [t]; }
  }

  /** The first line of the tail of a text, and where the next one starts. */
  lemma FirstLine(s: string, from: nat) returns (to: nat, next: nat)
    requires from < |s|
    ensures from <= to <= |s| && s[from..to] == s[from..][..to - from] && forall i :: from <= i < to ==> !IsLineBreak(s[i])
    ensures to == |s| ==> SplitLines(s[from..]) == [s[from..to]]
    ensures to < |s| ==>
      && IsLineBreak(s[to]) && next == (to + if At(s, to, "\r\n") then 2 else 1) && next <= |s|
      && SplitLines(s[from..]) == [s[from..to]] + SplitLines(s[next..])
  {
    hide IsLineBreak, LineLength, At, SplitLines;
    var t := s[from..];
    var n := LineLength(t);
    SplitLinesStep(t);
    to := from + n;
    assert t[..n] == s[from..to];
    forall i | from <= i < to ensures !IsLineBreak(s[i]) { assert s[i] == t[i - from]; }
    next := to;
    if to < |s| {
      NextStart(s, to);
      assert s[to] == t[n] && (to + 1 < |s| ==> s[to + 1] == t[n + 1]);
      next := to + if At(s, to, "\r\n") then 2 else 1;
      assert t[next - from..] == s[next..];
    }
  }

  lemma {:induction false} LinesStandIn(s: string, from: nat)
    requires from <= |s|
    ensures LinesIn(s, SplitLines(s[from..]), from)
    decreases |s| - from
  {
    hide IsLineBreak, At, SplitLines;
    if from == |s| {
      NoLines();
    } else {
      var to, next := FirstLine(s, from);
      var l := s[from..to];
      if to < |s| {
        var rest := SplitLines(s[next..]);
        LinesStandIn(s, next);
        assert ([l] + rest)[1..] == rest && ([l] + rest)[0] == l;
        assert LinesIn(s, [l] + rest, from);
      } else {
        assert LinesIn(s, [l], from);
      }
    }
  }

  lemma NoLines()
    ensures SplitLines("") == []
  {}

  lemma BulletLine(line: string)
    ensures AsBullet(line) == if |line| >= 2 && line[0] == '-' && line[1] == ' ' then line else "- " + line
  {
    if |line| >= 2 { assert line[..2] == [line[0], line[1]]; }
  }

  /** Key changes are printed under their marker, every line of theirs as a bullet: as it is
    * if it starts with a dash and a space, and else behind these. */
  lemma BulletsPrinted(keyChanges: string) returns (lines: seq<string>)
    ensures Blank(keyChanges) <==> KeyLines(keyChanges) == []
    ensures LinesIn(Strip(keyChanges), lines, 0)
    ensures !Blank(keyChanges) ==>
      && |KeyLines(keyChanges)| == |lines| + 1 && KeyLines(keyChanges)[0] == "**Key changes**:"
      && forall i :: 0 <= i < |lines| ==>
        KeyLines(keyChanges)[i + 1] == if |lines[i]| >= 2 && lines[i][0] == '-' && lines[i][1] == ' ' then lines[i] else "- " + lines[i]
  {
    hide Strip, LinesIn, SplitLines, AsBullet, Blank;
    WordsStrip(keyChanges);
    var s := Strip(keyChanges);
    assert s[0..] == s;
    LinesStandIn(s, 0);
    lines := SplitLines(s);
    if s != "" {
      forall i | 0 <= i < |lines|
        ensures KeyLines(keyChanges)[i + 1] ==
          if |lines[i]| >= 2 && lines[i][0] == '-' && lines[i][1] == ' ' then lines[i] else "- " + lines[i]
      {
        BulletLine(lines[i]);
        assert KeyLines(keyChanges)[i + 1] == AsBullets(lines)[i];
      }
    }
  }
}
