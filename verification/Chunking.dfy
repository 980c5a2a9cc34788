/** Greedy chunking of a text into pieces of at most `maxWords` words. */
module Chunking {
  import opened Outcomes
  import opened Text
  import opened WordText

  // ---------- Paragraphs ----------

  /** The position of the first blank-line break, or the end. */
  function BreakAt(s: string): (n: nat)
    ensures n <= |s|
    ensures n < |s| ==> n + 1 < |s| && s[n] == s[n + 1] == '\n'
    ensures forall i :: 0 <= i < n && i + 1 < |s| ==> !(s[i] == s[i + 1] == '\n')
  {
    if |s| < 2 then |s|
    else if s[0] == '\n' && s[1] == '\n' then 0
    else 1 + BreakAt(s[1..])
  }

  function SkipNewlines(s: string): (r: string)
    ensures |r| <= |s|
  {
    if s != "" && s[0] == '\n' then SkipNewlines(s[1..]) else s
  }

  /** The pieces between runs of two or more newlines. */
  function Pieces(s: string): seq<string>
    decreases |s|
  {
    var n := BreakAt(s);
    if n == |s| then [s] else [s[..n]] + Pieces(SkipNewlines(s[n + 1..]))
  }

  /** The pieces, trimmed, without the blank ones. */
  function Trimmed(pieces: seq<string>): seq<string> {
    if pieces == [] then []
    else if Strip(pieces[0]) == "" then Trimmed(pieces[1..])
    else [Strip(pieces[0])] + Trimmed(pieces[1..])
  }

  function Paragraphs(text: string): seq<string> {
    Trimmed(Pieces(text))
  }

  /** The words of several strings, in order. */
  function Flat(parts: seq<string>): seq<string> {
    if parts == [] then [] else Flat(parts[..|parts| - 1]) + Words(parts[|parts| - 1])
  }

  lemma {:induction false} FlatAppend(xs: seq<string>, ys: seq<string>)
    ensures Flat(xs + ys) == Flat(xs) + Flat(ys)
  {
    if ys == [] {
      assert xs + ys == xs;
    } else {
      assert (xs + ys)[..|xs + ys| - 1] == xs + ys[..|ys| - 1];
      FlatAppend(xs, ys[..|ys| - 1]);
    }
  }

  lemma FlatOne(s: string)
    ensures Flat([s]) == Words(s)
  {
    assert [s][..0] == [];
  }

  lemma {:induction false} SkipKeepsWords(s: string)
    ensures Words(SkipNewlines(s)) == Words(s)
  {
    if s != "" && s[0] == '\n' { SkipKeepsWords(s[1..]); }
  }

  lemma PiecesStep(t: string)
    requires BreakAt(t) < |t|
    ensures Pieces(t) == [t[..BreakAt(t)]] + Pieces(SkipNewlines(t[BreakAt(t) + 1..]))
  {}

  lemma OnlyPiece(t: string)
    requires BreakAt(t) == |t|
    ensures Pieces(t) == [t]
    ensures Trimmed([t]) == if Strip(t) == "" then [] else [Strip(t)]
  {
    hide Strip;
    assert [t][1..] == [];
  }

  lemma WordsAround(s: string, n: nat)
    requires n < |s| && s[n] == '\n'
    ensures Words(s) == Words(s[..n]) + Words(s[n + 1..])
  {
    hide Words;
    assert s == s[..n] + ['\n'] + s[n + 1..];
    WordsAppend(s[..n], '\n', s[n + 1..]);
  }

  lemma {:induction false} PiecesKeepWords(s: string)
    ensures Flat(Pieces(s)) == Words(s)
    decreases |s|
  {
    hide Words, Flat, BreakAt, SkipNewlines, Pieces;
    var n := BreakAt(s);
    if n == |s| {
      OnlyPiece(s);
      FlatOne(s);
    } else {
      var front, rest := s[..n], SkipNewlines(s[n + 1..]);
      PiecesStep(s);
      PiecesKeepWords(rest);
      SkipKeepsWords(s[n + 1..]);
      WordsAround(s, n);
      FlatCons(front, Pieces(rest));
    }
  }

  lemma {:induction false} TrimmedKeepWords(pieces: seq<string>)
    ensures Flat(Trimmed(pieces)) == Flat(pieces)
  {
    if pieces != [] {
      hide Words, Strip, Blank, Flat;
      TrimmedKeepWords(pieces[1..]);
      var head, rest := Strip(pieces[0]), Trimmed(pieces[1..]);
      StripKeepsWords(pieces[0]);
      FlatHead(pieces);
      if head != "" { FlatCons(head, rest); }
    }
  }

  lemma StripKeepsWords(s: string)
    ensures Words(Strip(s)) == Words(s) && (Strip(s) == "" ==> Words(s) == [])
  {
    hide Words, Strip, Blank;
    WordsStrip(s);
    WordsEmptyIffBlank(s);
  }

  lemma FlatHead(parts: seq<string>)
    requires parts != []
    ensures Flat(parts) == Words(parts[0]) + Flat(parts[1..])
  {
    hide Words, Flat;
    FlatCons(parts[0], parts[1..]);
    assert [parts[0]] + parts[1..] == parts;
  }

  lemma FlatCons(s: string, parts: seq<string>)
    ensures Flat([s] + parts) == Words(s) + Flat(parts)
  {
    FlatAppend([s], parts);
    FlatOne(s);
  }

  lemma {:induction false} TrimmedNotBlank(pieces: seq<string>, p: string)
    requires p in Trimmed(pieces)
    ensures Words(p) != []
  {
    hide Words, Strip, Blank;
    var head := Strip(pieces[0]);
    WordsStrip(pieces[0]);
    WordsEmptyIffBlank(pieces[0]);
    if p == head && head != "" {
    } else {
      TrimmedNotBlank(pieces[1..], p);
    }
  }

  /** The paragraphs hold exactly the words of the text, and none of them is blank. */
  lemma ParagraphsKeepWords(text: string)
    ensures Flat(Paragraphs(text)) == Words(text)
    ensures forall p :: p in Paragraphs(text) ==> Words(p) != []
    ensures Paragraphs(text) == [] <==> Blank(text)
  {
    PiecesKeepWords(text);
    TrimmedKeepWords(Pieces(text));
    forall p | p in Paragraphs(text) ensures Words(p) != [] { TrimmedNotBlank(Pieces(text), p); }
    WordsEmptyIffBlank(text);
    var ps := Paragraphs(text);
    if ps != [] { assert ps[|ps| - 1] in ps; }
  }

  // ---------- Where the paragraphs stand in the text ----------

  datatype Span = Span(lo: nat, hi: nat)

  /** Two adjacent newlines start at position i. */
  predicate Break(s: string, i: nat) {
    i + 1 < |s| && s[i] == '\n' && s[i + 1] == '\n'
  }

  /** The span is a paragraph: it begins and ends with a character that is no space, and has
    * no two adjacent newlines inside. */
  predicate IsParagraph(s: string, span: Span) {
    span.lo < span.hi <= |s| && !IsSpace(s[span.lo]) && !IsSpace(s[span.hi - 1])
    && forall i :: span.lo <= i < span.hi - 1 ==> !Break(s, i)
  }

  predicate HasBreak(s: string, lo: nat, hi: nat) {
    exists i :: lo <= i < hi - 1 && Break(s, i)
  }

  /** From the position on, the paragraphs are the spans of the text, in order: there is only
    * whitespace before, between and behind them, with two adjacent newlines between any two
    * neighbours. */
  predicate StandIn(s: string, paras: seq<string>, spans: seq<Span>, from: nat) {
    |spans| == |paras| && from <= |s| &&
    if spans == [] then AllSpace(s, from, |s|)
    else
      var span := spans[0];
      && IsParagraph(s, span) && paras[0] == s[span.lo..span.hi]
      && from <= span.lo && AllSpace(s, from, span.lo)
      && (|spans| > 1 ==> HasBreak(s, span.hi, spans[1].lo))
      && StandIn(s, paras[1..], spans[1..], span.hi)
  }

  lemma InnerSlice(s: string, lo: nat, hi: nat, a: nat, b: nat)
    requires lo <= hi <= |s| && a <= b <= hi - lo
    ensures s[lo..hi][a..b] == s[lo + a..lo + b]
  {
    var t := s[lo..hi];
    forall i | 0 <= i < b - a ensures t[a..b][i] == s[lo + a..lo + b][i] {
      assert t[a..b][i] == t[a + i];
    }
  }

  /** The trimmed text of a stretch. */
  lemma StripSpan(s: string, lo: nat, hi: nat) returns (span: Span)
    requires lo <= hi <= |s|
    ensures lo <= span.lo <= span.hi <= hi && Strip(s[lo..hi]) == s[span.lo..span.hi]
    ensures AllSpace(s, lo, span.lo) && AllSpace(s, span.hi, hi)
    ensures Strip(s[lo..hi]) != "" ==> !IsSpace(s[span.lo]) && !IsSpace(s[span.hi - 1])
  {
    hide IsSpace, Strip;
    var t := s[lo..hi];
    var a, b := StripSlice(t);
    span := Span(lo + a, lo + b);
    InnerSlice(s, lo, hi, a, b);
    forall i | lo <= i < span.lo ensures IsSpace(s[i]) { assert s[i] == t[i - lo]; }
    forall i | span.hi <= i < hi ensures IsSpace(s[i]) { assert s[i] == t[i - lo]; }
  }

  lemma StandEarlier(s: string, paras: seq<string>, spans: seq<Span>, from: nat, earlier: nat)
    requires StandIn(s, paras, spans, from) && earlier <= from && AllSpace(s, earlier, from)
    ensures StandIn(s, paras, spans, earlier)
  {
    hide IsSpace, IsParagraph;
  }

  lemma BreakFound(s: string, off: nat)
    requires off <= |s| && BreakAt(s[off..]) < |s| - off
    ensures Break(s, off + BreakAt(s[off..]))
  {
    hide BreakAt;
    var n := BreakAt(s[off..]);
    assert s[off + n] == s[off..][n] && s[off + n + 1] == s[off..][n + 1];
  }

  lemma TailSlices(s: string, off: nat, k: nat)
    requires off + k <= |s|
    ensures s[off..][k..] == s[off + k..] && s[off..][..k] == s[off..off + k]
  {}

  /** The first paragraph of a text, and the place where the rest begins. */
  lemma FirstPiece(s: string, off: nat) returns (n: nat, next: nat)
    requires off <= |s| && BreakAt(s[off..]) < |s| - off
    ensures n == off + BreakAt(s[off..]) && n + 2 <= next <= |s|
    ensures Pieces(s[off..]) == [s[off..n]] + Pieces(s[next..])
    ensures Break(s, n) && forall i :: n <= i < next ==> s[i] == '\n'
  {
    hide Pieces, BreakAt, SkipNewlines, Break;
    BreakFound(s, off);
    n := off + BreakAt(s[off..]);
    next := Behind(s, n);
    PiecesOfTail(s, off, n);
  }

  lemma PiecesOfTail(s: string, off: nat, n: nat)
    requires off <= |s| && BreakAt(s[off..]) < |s| - off && n == off + BreakAt(s[off..])
    ensures Pieces(s[off..]) == [s[off..n]] + Pieces(SkipNewlines(s[n + 1..]))
  {
    hide Pieces, BreakAt, SkipNewlines;
    PiecesStep(s[off..]);
    TailSlices(s, off, n - off);
    TailSlices(s, off, n - off + 1);
  }

  lemma {:induction false} SkippedNewlines(s: string) returns (off: nat)
    ensures off <= |s| && SkipNewlines(s) == s[off..]
    ensures forall i :: 0 <= i < off ==> s[i] == '\n'
    ensures s != "" && s[0] == '\n' ==> off >= 1
  {
    off := 0;
    if s != "" && s[0] == '\n' {
      var rest := s[1..];
      var k := SkippedNewlines(rest);
      off := k + 1;
      assert rest[k..] == s[off..];
      forall i | 0 <= i < off ensures s[i] == '\n' { if i > 0 { assert s[i] == rest[i - 1]; } }
    }
  }

  lemma Behind(s: string, n: nat) returns (next: nat)
    requires Break(s, n)
    ensures n + 2 <= next <= |s| && SkipNewlines(s[n + 1..]) == s[next..]
    ensures forall i :: n <= i < next ==> s[i] == '\n'
  {
    hide SkipNewlines;
    var behind := s[n + 1..];
    assert s[n + 1] == behind[0];
    var k := SkippedNewlines(behind);
    next := n + 1 + k;
    assert behind[k..] == s[next..];
    forall i | n < i < next ensures s[i] == '\n' { assert s[i] == behind[i - n - 1]; }
  }

  lemma NewlinesAreSpace(s: string, lo: nat, hi: nat)
    requires hi <= |s| && forall i :: lo <= i < hi ==> s[i] == '\n'
    ensures AllSpace(s, lo, hi)
  {}

  lemma NoBreakInside(s: string, off: nat, span: Span)
    requires off <= |s| && off <= span.lo <= span.hi <= off + BreakAt(s[off..])
    ensures forall i :: span.lo <= i < span.hi - 1 ==> !Break(s, i)
  {
    var t := s[off..];
    forall i | span.lo <= i < span.hi - 1 ensures !Break(s, i) {
      assert s[i] == t[i - off] && s[i + 1] == t[i - off + 1];
    }
  }

  lemma {:induction false} PiecesStandIn(s: string, off: nat) returns (spans: seq<Span>)
    requires off <= |s|
    ensures StandIn(s, Trimmed(Pieces(s[off..])), spans, off)
    decreases |s| - off
  {
    hide Pieces, Strip, IsSpace, BreakAt, Break, StandIn, AllSpace;
    var cut := BreakAt(s[off..]);
    var span := StripSpan(s, off, off + cut);
    NoBreakInside(s, off, span);
    if cut == |s| - off {
      OnlyPiece(s[off..]);
      assert s[off..off + cut] == s[off..];
      spans := LastParagraph(s, off, span);
    } else {
      var n, next := FirstPiece(s, off);
      var rest := PiecesStandIn(s, next);
      NewlinesAreSpace(s, n, next);
      TrimmedCons(s[off..n], Pieces(s[next..]));
      spans := ParagraphInFront(s, off, n, next, span, Trimmed(Pieces(s[next..])), rest);
    }
  }

  lemma LastParagraph(s: string, off: nat, span: Span) returns (spans: seq<Span>)
    requires off <= span.lo <= span.hi <= |s| && AllSpace(s, off, span.lo) && AllSpace(s, span.hi, |s|)
    requires span.lo < span.hi ==> IsParagraph(s, span)
    ensures StandIn(s, if span.lo == span.hi then [] else [s[span.lo..span.hi]], spans, off)
  {
    hide IsSpace, IsParagraph;
    if span.lo == span.hi {
      spans := [];
    } else {
      spans := [span];
      var paras := [s[span.lo..span.hi]];
      assert paras[1..] == [] && spans[1..] == [];
    }
  }

  lemma ParagraphInFront(s: string, off: nat, n: nat, next: nat, span: Span, later: seq<string>, rest: seq<Span>)
    returns (spans: seq<Span>)
    requires off <= n < next <= |s| && StandIn(s, later, rest, next) && Break(s, n) && n + 2 <= next && AllSpace(s, n, next)
    requires off <= span.lo <= span.hi <= n && AllSpace(s, off, span.lo) && AllSpace(s, span.hi, n)
    requires span.lo < span.hi ==> IsParagraph(s, span)
    ensures StandIn(s, (if span.lo == span.hi then [] else [s[span.lo..span.hi]]) + later, spans, off)
  {
    hide IsSpace, Break, IsParagraph;
    StandEarlier(s, later, rest, next, span.hi);
    if span.lo == span.hi {
      StandEarlier(s, later, rest, span.hi, off);
      assert [] + later == later;
      spans := rest;
    } else {
      spans := [span] + rest;
      if rest != [] {
        FirstFrom(s, later, rest, next);
        assert HasBreak(s, span.hi, rest[0].lo);
      }
      assert ([s[span.lo..span.hi]] + later)[1..] == later && spans[1..] == rest;
    }
  }

  lemma TrimmedCons(t: string, pieces: seq<string>)
    ensures Trimmed([t] + pieces) == (if Strip(t) == "" then [] else [Strip(t)]) + Trimmed(pieces)
  {
    hide Strip;
    assert ([t] + pieces)[1..] == pieces;
    assert [] + Trimmed(pieces) == Trimmed(pieces);
  }

  lemma FirstFrom(s: string, paras: seq<string>, spans: seq<Span>, from: nat)
    requires spans != [] && StandIn(s, paras, spans, from)
    ensures from <= spans[0].lo
  {}

  /** Where the paragraphs of a text are: each is a stretch of it from one character that is
    * no space to another, without two adjacent newlines inside, and between two neighbours
    * there is only whitespace, with two adjacent newlines in it. */
  lemma ParagraphsStandInText(text: string)
    ensures exists spans :: StandIn(text, Paragraphs(text), spans, 0)
  {
    hide StandIn, Pieces, Trimmed;
    var spans := PiecesStandIn(text, 0);
    assert text[0..] == text;
    assert StandIn(text, Paragraphs(text), spans, 0);
  }

  lemma {:induction false} WordsOfParagraphs(ps: seq<string>)
    ensures Words(Join(ps, "\n\n")) == Flat(ps)
  {
    if |ps| == 1 {
      FlatOne(ps[0]);
      assert ps == [ps[0]];
    } else if |ps| > 1 {
      var rest := Join(ps[1..], "\n\n");
      WordsOfParagraphs(ps[1..]);
      assert Join(ps, "\n\n") == ps[0] + ['\n'] + ("" + ['\n'] + rest);
      WordsAppend("", '\n', rest);
      WordsAppend(ps[0], '\n', "" + ['\n'] + rest);
      assert ps == [ps[0]] + ps[1..];
      FlatAppend([ps[0]], ps[1..]);
      FlatOne(ps[0]);
    }
  }

  // ---------- Sizes ----------

  function Sizes(chunks: seq<string>): (r: seq<nat>)
    ensures |r| == |chunks|
  {
    if chunks == [] then [] else Sizes(chunks[..|chunks| - 1]) + [|Words(chunks[|chunks| - 1])|]
  }

  predicate Bounded(sizes: seq<nat>, max: nat) {
    forall i :: 0 <= i < |sizes| ==> 1 <= sizes[i] <= max
  }

  /** Any three neighbours hold more than `max` words together. */
  predicate Dense(sizes: seq<nat>, max: nat) {
    forall i :: 0 <= i < |sizes| - 2 ==> Triple(sizes, i) > max
  }

  function Triple(sizes: seq<nat>, i: nat): nat
    requires i + 2 < |sizes|
  {
    sizes[i] + sizes[i + 1] + sizes[i + 2]
  }

  /** A chunk of n words may follow. */
  predicate Fits(sizes: seq<nat>, n: nat, max: nat) {
    |sizes| >= 2 ==> sizes[|sizes| - 2] + sizes[|sizes| - 1] + n > max
  }

  /** The chunk is a run of whole paragraphs, or a slice of one paragraph that is too long. */
  ghost predicate Aligned(chunk: string, paras: seq<string>, max: nat) {
    || (exists i, j :: 0 <= i < j <= |paras| && chunk == Join(paras[i..j], "\n\n"))
    || (exists k, a, b :: 0 <= k < |paras| && |Words(paras[k])| > max && 0 <= a < b <= |Words(paras[k])|
          && chunk == Join(Words(paras[k])[a..b], " "))
  }

  ghost predicate WellChunked(chunks: seq<string>, paras: seq<string>, max: nat) {
    && Bounded(Sizes(chunks), max) && Dense(Sizes(chunks), max)
    && forall c :: c in chunks ==> Aligned(c, paras, max)
  }

  /** The same, chunk by chunk: each one is in bounds, on a boundary, and may follow the others. */
  ghost predicate Chained(chunks: seq<string>, paras: seq<string>, max: nat) {
    chunks == [] ||
      var front, last := chunks[..|chunks| - 1], chunks[|chunks| - 1];
      && Chained(front, paras, max)
      && Aligned(last, paras, max) && 1 <= |Words(last)| <= max && Fits(Sizes(front), |Words(last)|, max)
  }

  lemma {:induction false} ChainedIsWellChunked(chunks: seq<string>, paras: seq<string>, max: nat)
    requires Chained(chunks, paras, max)
    ensures WellChunked(chunks, paras, max)
  {
    if chunks != [] {
      var front := chunks[..|chunks| - 1];
      ChainedIsWellChunked(front, paras, max);
      var sizes, next := Sizes(front), Sizes(chunks);
      forall i | 0 <= i < |next| - 2 ensures Triple(next, i) > max {
        if i < |sizes| - 2 { assert Triple(next, i) == Triple(sizes, i); }
      }
      forall c | c in chunks ensures Aligned(c, paras, max) {
        assert c in front || c == chunks[|chunks| - 1];
      }
    }
  }

  lemma AddChunk(chunks: seq<string>, c: string, paras: seq<string>, max: nat)
    requires Chained(chunks, paras, max) && Aligned(c, paras, max)
    requires 1 <= |Words(c)| <= max && Fits(Sizes(chunks), |Words(c)|, max)
    ensures Chained(chunks + [c], paras, max)
    ensures Flat(chunks + [c]) == Flat(chunks) + Words(c)
    ensures Sizes(chunks + [c]) == Sizes(chunks) + [|Words(c)|]
  {
    assert (chunks + [c])[..|chunks|] == chunks;
  }

  /** After cutting up a long paragraph the last chunk but one is full. */
  predicate FullBeforeLast(sizes: seq<nat>, max: nat) {
    |sizes| >= 2 && sizes[|sizes| - 2] == max && sizes[|sizes| - 1] >= 1
  }

  // ---------- Which chunks, exactly ----------

  /** What a chunk is made of: the paragraphs lo to hi, or the words lo to hi of one. */
  datatype Piece = Run(lo: nat, hi: nat) | Slice(para: nat, lo: nat, hi: nat)

  /** A place in the text: a paragraph, and a word of it. */
  datatype Place = Place(para: nat, word: nat)

  /** A run fits the limit, and one more paragraph would not; a slice of a paragraph that is
    * too long takes as many words as the limit allows. */
  predicate Greedy(piece: Piece, paras: seq<string>, max: nat) {
    match piece
    case Run(lo, hi) =>
      lo < hi <= |paras| && |Flat(paras[lo..hi])| <= max
      && (hi < |paras| ==> |Flat(paras[lo..hi])| + |Words(paras[hi])| > max)
    case Slice(para, lo, hi) =>
      para < |paras| && |Words(paras[para])| > max && lo < hi <= |Words(paras[para])|
      && (hi == lo + max || (hi == |Words(paras[para])| && hi < lo + max))
  }

  function Start(piece: Piece): Place {
    match piece
    case Run(lo, _) => Place(lo, 0)
    case Slice(para, lo, _) => Place(para, lo)
  }

  function Next(piece: Piece, paras: seq<string>): Place {
    match piece
    case Run(_, hi) => Place(hi, 0)
    case Slice(para, _, hi) =>
      if para < |paras| && hi < |Words(paras[para])| then Place(para, hi) else Place(para + 1, 0)
  }

  function TextOf(piece: Piece, paras: seq<string>, max: nat): string
    requires Greedy(piece, paras, max)
  {
    match piece
    case Run(lo, hi) => Join(paras[lo..hi], "\n\n")
    case Slice(para, lo, hi) => Join(Words(paras[para])[lo..hi], " ")
  }

  /** Where the first i pieces end. */
  function EndOf(plan: seq<Piece>, i: nat, paras: seq<string>): Place
    requires i <= |plan|
  {
    if i == 0 then Place(0, 0) else Next(plan[i - 1], paras)
  }

  /** The chunks follow the plan, piece by piece from the start of the text to the place. */
  ghost predicate Planned(chunks: seq<string>, plan: seq<Piece>, paras: seq<string>, max: nat, end: Place) {
    && |plan| == |chunks|
    && (forall i :: 0 <= i < |plan| ==> Greedy(plan[i], paras, max) && chunks[i] == TextOf(plan[i], paras, max))
    && (forall i :: 0 <= i < |plan| ==> Start(plan[i]) == EndOf(plan, i, paras))
    && end == EndOf(plan, |plan|, paras)
  }

  lemma OneMorePiece(chunks: seq<string>, plan: seq<Piece>, paras: seq<string>, max: nat, piece: Piece)
    requires Planned(chunks, plan, paras, max, Start(piece)) && Greedy(piece, paras, max)
    ensures Planned(chunks + [TextOf(piece, paras, max)], plan + [piece], paras, max, Next(piece, paras))
  {
    hide Greedy, Start, Next, TextOf;
    var all := plan + [piece];
    forall i | 0 <= i <= |plan| ensures EndOf(all, i, paras) == EndOf(plan, i, paras) {}
  }

  lemma ClosingRun(paras: seq<string>, lo: nat, hi: nat, max: nat)
    requires lo < hi <= |paras| && |Flat(paras[lo..hi])| <= max
    requires hi < |paras| ==> |Flat(paras[lo..hi])| + |Words(paras[hi])| > max
    ensures Greedy(Run(lo, hi), paras, max)
  {}

  /** At one place only one piece is possible. */
  lemma OnePiece(p: Piece, q: Piece, paras: seq<string>, max: nat)
    requires Greedy(p, paras, max) && Greedy(q, paras, max) && Start(p) == Start(q)
    requires max >= 1 && forall x :: x in paras ==> Words(x) != []
    ensures p == q
  {
    hide Words;
    if p.Run? && q.Run? {
      if p.hi < q.hi { LongerRun(paras, p.lo, p.hi, q.hi); }
      if q.hi < p.hi { LongerRun(paras, p.lo, q.hi, p.hi); }
    } else if p.Run? {
      LongerRun(paras, p.lo, p.lo, p.hi);
    } else if q.Run? {
      LongerRun(paras, q.lo, q.lo, q.hi);
    }
  }

  /** A run holds the words of any run at its front and of the paragraph behind that. */
  lemma LongerRun(paras: seq<string>, lo: nat, mid: nat, hi: nat)
    requires lo <= mid < hi <= |paras|
    ensures |Flat(paras[lo..hi])| >= |Flat(paras[lo..mid])| + |Words(paras[mid])|
  {
    hide Words, Flat;
    assert paras[lo..hi] == paras[lo..mid] + [paras[mid]] + paras[mid + 1..hi];
    FlatAppend(paras[lo..mid] + [paras[mid]], paras[mid + 1..hi]);
    FlatAppend(paras[lo..mid], [paras[mid]]);
    FlatOne(paras[mid]);
  }

  lemma SamePiece(plan1: seq<Piece>, plan2: seq<Piece>, i: nat, paras: seq<string>, max: nat)
    requires max >= 1 && forall x :: x in paras ==> Words(x) != []
    requires i < |plan1| && i < |plan2| && plan1[..i] == plan2[..i]
    requires Greedy(plan1[i], paras, max) && Greedy(plan2[i], paras, max)
    requires Start(plan1[i]) == EndOf(plan1, i, paras) && Start(plan2[i]) == EndOf(plan2, i, paras)
    ensures plan1[..i + 1] == plan2[..i + 1]
  {
    hide Greedy, Start, Next, Words;
    SameEnd(plan1, plan2, i, paras);
    OnePiece(plan1[i], plan2[i], paras, max);
    assert plan1[..i + 1] == plan1[..i] + [plan1[i]] && plan2[..i + 1] == plan2[..i] + [plan2[i]];
  }

  lemma SameEnd(plan1: seq<Piece>, plan2: seq<Piece>, i: nat, paras: seq<string>)
    requires i <= |plan1| && i <= |plan2| && plan1[..i] == plan2[..i]
    ensures EndOf(plan1, i, paras) == EndOf(plan2, i, paras)
  {
    hide Next;
    if i > 0 { assert plan1[i - 1] == plan1[..i][i - 1] == plan2[..i][i - 1] == plan2[i - 1]; }
  }

  lemma SamePlan(chunks1: seq<string>, plan1: seq<Piece>, chunks2: seq<string>, plan2: seq<Piece>, paras: seq<string>, max: nat)
    requires max >= 1 && forall x :: x in paras ==> Words(x) != []
    requires Planned(chunks1, plan1, paras, max, Place(|paras|, 0)) && Planned(chunks2, plan2, paras, max, Place(|paras|, 0))
    ensures plan1 == plan2
  {
    hide Greedy, Start, Next, TextOf, Words, EndOf;
    var i: nat := 0;
    while i < |plan1| && i < |plan2|
      invariant i <= |plan1| && i <= |plan2| && plan1[..i] == plan2[..i]
    {
      SamePiece(plan1, plan2, i, paras, max);
      i := i + 1;
    }
    SameEnd(plan1, plan2, i, paras);
    if i < |plan1| { NoPieceAtEnd(plan1[i], paras, max); }
    if i < |plan2| { NoPieceAtEnd(plan2[i], paras, max); }
    assert plan1 == plan1[..i] && plan2 == plan2[..i];
  }

  /** So the plan, and with it the chunks, is fixed by the paragraphs and the limit. */
  lemma PlanIsUnique(chunks1: seq<string>, plan1: seq<Piece>, chunks2: seq<string>, plan2: seq<Piece>, paras: seq<string>, max: nat)
    requires max >= 1 && forall x :: x in paras ==> Words(x) != []
    requires Planned(chunks1, plan1, paras, max, Place(|paras|, 0)) && Planned(chunks2, plan2, paras, max, Place(|paras|, 0))
    ensures chunks1 == chunks2
  {
    hide Greedy, Start, Next, TextOf, EndOf, Words;
    SamePlan(chunks1, plan1, chunks2, plan2, paras, max);
  }

  lemma NoPieceAtEnd(piece: Piece, paras: seq<string>, max: nat)
    requires Greedy(piece, paras, max)
    ensures Start(piece) != Place(|paras|, 0)
  {
    hide Words, Flat;
  }

  // ---------- The algorithm ----------

  method FlushCurrent(chunks: seq<string>, current: seq<string>, ghost paras: seq<string>, ghost i: nat, ghost j: nat, ghost max: nat,
      ghost plan: seq<Piece>)
    returns (r: seq<string>, ghost plan': seq<Piece>)
    requires Planned(chunks, plan, paras, max, Place(i, 0)) && Greedy(Run(i, j), paras, max)
    ensures Planned(r, plan', paras, max, Place(j, 0))
    requires i < j <= |paras| && current == paras[i..j]
    requires Chained(chunks, paras, max)
    requires 1 <= |Flat(current)| <= max && Fits(Sizes(chunks), |Flat(current)|, max)
    ensures Chained(r, paras, max)
    ensures Flat(r) == Flat(chunks) + Flat(current)
    ensures Sizes(r) == Sizes(chunks) + [|Flat(current)|]
  {
    OneMorePiece(chunks, plan, paras, max, Run(i, j));
    plan' := plan + [Run(i, j)];
    hide Planned, Greedy;
    WordsOfParagraphs(current);
    AddChunk(chunks, Join(current, "\n\n"), paras, max);
    r := chunks + [Join(current, "\n\n")];
  }

  lemma SliceAligned(piece: seq<string>, paras: seq<string>, k: nat, a: nat, b: nat, max: nat)
    requires k < |paras| && |Words(paras[k])| > max && a < b <= |Words(paras[k])| && piece == Words(paras[k])[a..b]
    ensures Aligned(Join(piece, " "), paras, max) && Words(Join(piece, " ")) == piece
  {
    WordsAreWords(paras[k]);
    forall w | w in piece ensures IsWord(w) {}
    WordsOfJoin(piece);
  }

  method SplitLong(chunks: seq<string>, words: seq<string>, maxWords: nat, ghost paras: seq<string>, ghost k: nat,
      ghost plan: seq<Piece>)
    returns (r: seq<string>, ghost plan': seq<Piece>)
    requires Planned(chunks, plan, paras, maxWords, Place(k, 0))
    ensures Planned(r, plan', paras, maxWords, Place(k + 1, 0))
    requires maxWords >= 1 && k < |paras| && words == Words(paras[k]) && |words| > maxWords
    requires Chained(chunks, paras, maxWords)
    ensures Chained(r, paras, maxWords)
    ensures Flat(r) == Flat(chunks) + words
    ensures FullBeforeLast(Sizes(r), maxWords)
  {
    hide Words, Aligned, Join, Planned;
    r, plan' := chunks, plan;
    var i := 0;
    ghost var done := 0;
    assert words[..0] == [];
    while i < |words|
      invariant 0 <= i && done == if i < |words| then i else |words|
      invariant Planned(r, plan', paras, maxWords, if i < |words| then Place(k, i) else Place(k + 1, 0))
      invariant Chained(r, paras, maxWords)
      invariant Flat(r) == Flat(chunks) + words[..done]
      invariant 0 < i < |words| ==> |r| > 0 && Sizes(r)[|r| - 1] == maxWords
      invariant i >= |words| ==> FullBeforeLast(Sizes(r), maxWords)
      decreases |words| - i
    {
      var end := if i + maxWords <= |words| then i + maxWords else |words|;
      var piece := words[i..end];
      OneMorePiece(r, plan', paras, maxWords, Slice(k, i, end));
      plan' := plan' + [Slice(k, i, end)];
      SliceAligned(piece, paras, k, i, end, maxWords);
      AddChunk(r, Join(piece, " "), paras, maxWords);
      assert words[..i] + piece == words[..end];
      r := r + [Join(piece, " ")];
      i := i + maxWords;
      done := end;
    }
    assert words[..|words|] == words;
  }

  /** Between paragraphs: `current` is the run of paragraphs that is still open. */
  ghost predicate LoopState(chunks: seq<string>, current: seq<string>, count: nat, first: nat, k: nat, paras: seq<string>, max: nat, plan: seq<Piece>) {
    && Planned(chunks, plan, paras, max, Place(first, 0))
    && first <= k <= |paras| && current == paras[first..k]
    && count == |Flat(current)| <= max
    && (if current != [] then count >= 1 && Fits(Sizes(chunks), count, max)
        else chunks == [] || FullBeforeLast(Sizes(chunks), max))
    && Chained(chunks, paras, max)
    && Flat(chunks) + Flat(current) == Flat(paras[..k])
  }

  lemma NextParagraph(current: seq<string>, first: nat, k: nat, paras: seq<string>)
    requires first <= k < |paras| && current == paras[first..k]
    ensures Flat(paras[..k + 1]) == Flat(paras[..k]) + Words(paras[k])
    ensures Flat(current + [paras[k]]) == Flat(current) + Words(paras[k])
    ensures Flat([paras[k]]) == Words(paras[k])
    ensures current + [paras[k]] == paras[first..k + 1]
  {
    assert paras[..k + 1] == paras[..k] + [paras[k]];
    FlatAppend(paras[..k], [paras[k]]);
    FlatOne(paras[k]);
    FlatAppend(current, [paras[k]]);
  }

  /** A paragraph that is too long closes the open run and is cut up. */
  method AddLong(chunks: seq<string>, current: seq<string>, paras: seq<string>, k: nat, max: nat, ghost first: nat, ghost plan: seq<Piece>)
    returns (r: seq<string>, ghost plan': seq<Piece>)
    requires max >= 1 && k < |paras| && |Words(paras[k])| > max
    requires LoopState(chunks, current, |Flat(current)|, first, k, paras, max, plan)
    ensures LoopState(r, [], 0, k + 1, k + 1, paras, max, plan')
  {
    hide Words, Aligned, Join, Planned, Greedy;
    NextParagraph(current, first, k, paras);
    r, plan' := chunks, plan;
    if current != [] {
      ClosingRun(paras, first, k, max);
      r, plan' := FlushCurrent(chunks, current, paras, first, k, max, plan);
    } else {
      assert first == k;
    }
    r, plan' := SplitLong(r, Words(paras[k]), max, paras, k, plan');
  }

  /** Any other paragraph joins the open run if it still fits, and else starts a new one. */
  method AddShort(chunks: seq<string>, current: seq<string>, count: nat, paras: seq<string>, k: nat, max: nat, ghost first: nat, ghost plan: seq<Piece>)
    returns (chunks': seq<string>, current': seq<string>, count': nat, ghost first': nat, ghost plan': seq<Piece>)
    requires max >= 1 && k < |paras| && 1 <= |Words(paras[k])| <= max
    requires LoopState(chunks, current, count, first, k, paras, max, plan)
    ensures LoopState(chunks', current', count', first', k + 1, paras, max, plan')
  {
    hide Words, Aligned, Join, Planned, Chained, Greedy, Sizes, Fits, FullBeforeLast;
    var paraWords := |Words(paras[k])|;
    NextParagraph(current, first, k, paras);
    if current != [] && count + paraWords > max {
      ClosingRun(paras, first, k, max);
      chunks', plan' := FlushCurrent(chunks, current, paras, first, k, max, plan);
      current', count', first' := [paras[k]], paraWords, k;
      ClosedFits(Sizes(chunks), count, paraWords, max);
    } else {
      chunks', current', count', first', plan' := chunks, current + [paras[k]], count + paraWords, first, plan;
      if current != [] { MoreFits(Sizes(chunks), count, paraWords, max); } else { FullFits(chunks, paraWords, max); }
    }
  }

  lemma ClosedFits(sizes: seq<nat>, last: nat, n: nat, max: nat)
    requires last + n > max
    ensures Fits(sizes + [last], n, max)
  {}

  lemma MoreFits(sizes: seq<nat>, n: nat, more: nat, max: nat)
    requires Fits(sizes, n, max)
    ensures Fits(sizes, n + more, max)
  {}

  lemma FullFits(chunks: seq<string>, n: nat, max: nat)
    requires n >= 1 && (chunks == [] || FullBeforeLast(Sizes(chunks), max))
    ensures Fits(Sizes(chunks), n, max)
  {}

  lemma StartState(paras: seq<string>, max: nat)
    ensures LoopState([], [], 0, 0, 0, paras, max, [])
  {
    assert paras[..0] == [] && paras[0..0] == [];
  }

  /** The loop over the paragraphs. */
  method ChunkParagraphs(paragraphs: seq<string>, maxWords: nat) returns (chunks: seq<string>)
    requires maxWords >= 1 && forall p :: p in paragraphs ==> Words(p) != []
    ensures WellChunked(chunks, paragraphs, maxWords)
    ensures exists plan :: Planned(chunks, plan, paragraphs, maxWords, Place(|paragraphs|, 0))
    ensures Flat(chunks) == Flat(paragraphs)
  {
    hide Words, Aligned, Join, Chained, WellChunked, Planned, Greedy, Flat, Sizes, Fits, FullBeforeLast;
    StartState(paragraphs, maxWords);
    chunks := [];
    var current: seq<string> := [];
    var currentWords := 0;
    ghost var first: nat := 0;
    ghost var plan: seq<Piece> := [];
    var k: nat := 0;
    while k < |paragraphs|
      invariant LoopState(chunks, current, currentWords, first, k, paragraphs, maxWords, plan)
    {
      assert paragraphs[k] in paragraphs;
      if |Words(paragraphs[k])| > maxWords {
        chunks, plan := AddLong(chunks, current, paragraphs, k, maxWords, first, plan);
        current, currentWords, first := [], 0, k + 1;
      } else {
        chunks, current, currentWords, first, plan := AddShort(chunks, current, currentWords, paragraphs, k, maxWords, first, plan);
      }
      k := k + 1;
    }
    assert paragraphs[..k] == paragraphs;
    if current != [] {
      ClosingRun(paragraphs, first, k, maxWords);
      chunks, plan := FlushCurrent(chunks, current, paragraphs, first, k, maxWords, plan);
    } else {
      assert first == k;
    }
    ChainedIsWellChunked(chunks, paragraphs, maxWords);
  }

  datatype ChunkError = ZeroStep

  /** The program's chunker. Below one, every paragraph is too long and is cut up with that
    * step: an error for zero, and no piece at all for a negative one, which leaves the
    * text in one chunk. */
  method ChunkText(text: string, maxWords: int) returns (r: Result<seq<string>, ChunkError>)
    ensures r.Err? <==> !Blank(text) && maxWords == 0
    ensures r.Ok? ==> Flat(r.value) == Words(text)
    ensures r.Ok? && Blank(text) ==> r.value == [""]
    ensures r.Ok? && !Blank(text) ==>
      if maxWords >= 1 then
        && WellChunked(r.value, Paragraphs(text), maxWords)
        && exists plan :: Planned(r.value, plan, Paragraphs(text), maxWords, Place(|Paragraphs(text)|, 0))
      else r.value == [text]
  {
    hide Planned, WellChunked;
    var paragraphs := Paragraphs(text);
    ParagraphsKeepWords(text);
    if paragraphs == [] {
      WordsEmptyIffBlank(text);
      FlatOne("");
      WordsStrip(text);
      return Ok(if Strip(text) != "" then [text] else [""]);
    }
    if maxWords < 1 {
      FlatOne(text);
      return if maxWords == 0 then Err(ZeroStep) else Ok([text]);
    }
    var chunks := ChunkParagraphs(paragraphs, maxWords);
    r := Ok(chunks);
  }

  // ---------- How many chunks ----------

  function Sum(sizes: seq<nat>): nat {
    if sizes == [] then 0 else sizes[0] + Sum(sizes[1..])
  }

  lemma {:induction false} SumAppend(xs: seq<nat>, ys: seq<nat>)
    ensures Sum(xs + ys) == Sum(xs) + Sum(ys)
  {
    if xs == [] {
      assert xs + ys == ys;
    } else {
      SumAppend(xs[1..], ys);
      assert (xs + ys)[1..] == xs[1..] + ys;
    }
  }

  lemma {:induction false} SumOfSizes(chunks: seq<string>)
    ensures Sum(Sizes(chunks)) == |Flat(chunks)|
  {
    if chunks != [] {
      var front := chunks[..|chunks| - 1];
      SumOfSizes(front);
      SumAppend(Sizes(front), [|Words(chunks[|chunks| - 1])|]);
      assert Sum([|Words(chunks[|chunks| - 1])|]) == |Words(chunks[|chunks| - 1])|;
    }
  }

  lemma SumFirstThree(sizes: seq<nat>)
    requires |sizes| >= 3
    ensures Sum(sizes) == sizes[0] + sizes[1] + sizes[2] + Sum(sizes[3..])
  {
    assert sizes == [sizes[0], sizes[1], sizes[2]] + sizes[3..];
    SumAppend([sizes[0], sizes[1], sizes[2]], sizes[3..]);
    SumAppend([sizes[0]], [sizes[1], sizes[2]]);
    assert [sizes[0], sizes[1], sizes[2]] == [sizes[0]] + [sizes[1], sizes[2]];
    SumAppend([sizes[1]], [sizes[2]]);
    assert [sizes[1], sizes[2]] == [sizes[1]] + [sizes[2]];
  }

  lemma {:induction false} DenseCount(sizes: seq<nat>, max: nat)
    requires Dense(sizes, max)
    ensures |sizes| <= 3 * (Sum(sizes) / (max + 1)) + 2
  {
    if |sizes| >= 3 {
      var rest := sizes[3..];
      forall i | 0 <= i < |rest| - 2 ensures Triple(rest, i) > max {
        assert Triple(rest, i) == Triple(sizes, i + 3);
      }
      DenseCount(rest, max);
      SumFirstThree(sizes);
      assert Triple(sizes, 0) > max;
      QuotientGrows(Sum(sizes), Sum(rest), max + 1);
    } else {
      QuotientNonNegative(Sum(sizes), max + 1);
    }
  }

  lemma QuotientNonNegative(w: nat, m: nat)
    requires m > 0
    ensures w / m >= 0
  {}

  lemma QuotientGrows(a: nat, b: nat, m: nat)
    requires m > 0 && a >= b + m
    ensures a / m >= b / m + 1
  {
    var p, q := a / m, b / m;
    assert a == p * m + a % m && b == q * m + b % m;
    if p <= q { ProductMonotone(p, q, m); }
  }

  lemma ProductMonotone(p: int, q: int, m: nat)
    requires p <= q
    ensures p * m <= q * m
  {}

  /** A text of W words is cut into at most 3 * (W div (max + 1)) + 2 chunks. */
  lemma ChunkCount(chunks: seq<string>, paras: seq<string>, max: nat)
    requires WellChunked(chunks, paras, max)
    ensures |chunks| <= 3 * (|Flat(chunks)| / (max + 1)) + 2
  {
    DenseCount(Sizes(chunks), max);
    SumOfSizes(chunks);
  }
}
