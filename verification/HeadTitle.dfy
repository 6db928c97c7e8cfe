/**
 Title deduplication in the head buffer: a scanner for <title ...>...</title>
 spans and a pass that cuts all but the last one out of the text.
 */
module HeadTitle {
  import opened Text
  import opened SpanCutting

  // ----------------------------------------------------------------- matching

  /** The five letters of "title" here, in any case; ASCII folding is all bytes.EqualFold does to them. */
  predicate TitleLetters(t: string, i: nat) {
    && i + 5 <= |t|
    && ToLower(t[i]) == 't'
    && ToLower(t[i + 1]) == 'i'
    && ToLower(t[i + 2]) == 't'
    && ToLower(t[i + 3]) == 'l'
    && ToLower(t[i + 4]) == 'e'
  }

  /** A closing title tag here. */
  predicate ClosesAt(t: string, i: nat) {
    i + 8 <= |t| && t[i] == '<' && t[i + 1] == '/' && TitleLetters(t, i + 2) && t[i + 7] == '>'
  }

  predicate IsDelimiter(c: char) {
    c == '>' || c == ' ' || c == '\t' || c == '\n' || c == '\r' || c == '/'
  }

  predicate TitleAt(t: string, i: nat) {
    i + 6 < |t| && t[i] == '<' && TitleLetters(t, i + 1)
  }

  /** An opening title tag starts here. */
  predicate Opens(t: string, i: nat) {
    TitleAt(t, i) && IsDelimiter(t[i + 6])
  }

  /** indexFold for the closing tag, from the start of t. */
  function FirstClose(t: string): (r: int)
    ensures -1 <= r && (r >= 0 ==> r + 8 <= |t|)
  {
    if |t| < 8 then -1
    else if ClosesAt(t, 0) then 0
    else
      var r := FirstClose(t[1..]);
      if r < 0 then -1 else r + 1
  }

  /** Where the title opening at the start of t ends, if it is closed. */
  function TitleEnd(t: string): (r: Option<nat>)
    requires Opens(t, 0)
    ensures r.Some? ==> 7 < r.value <= |t|
  {
    var gt := IndexByte(t[6..], '>');
    if gt < 0 then None
    else
      var close := FirstClose(t[6 + gt + 1..]);
      if close < 0 then None else Some(6 + gt + 1 + close + 8)
  }

  // ---------------------------------------------------------------- scanning

  /** What one turn of the cursor loop sees: stop, move on, or a title after a gap. */
  function LookAt(t: string): Look {
    var i := IndexByte(t, '<');
    if i < 0 || i + 6 >= |t| then Stop
    else if !TitleAt(t, i) then Skip(i + 1)
    else if !Opens(t, i) then Skip(i + 6)
    else match TitleEnd(t[i..])
      case None => Stop
      case Some(e) => Found(i, e)
  }

  lemma LookIsLawful(t: string)
    ensures LookLaw(LookAt, Opens, t)
  {
  }

  lemma StopIsLawful(t: string, n: nat)
    ensures StopLaw(LookAt, Opens, t, n)
  {
  }

  lemma TitleScanner()
    ensures Scanner(LookAt, Opens)
  {
    forall t
      ensures LookLaw(LookAt, Opens, t)
    {
      LookIsLawful(t);
    }
    forall t, n
      ensures StopLaw(LookAt, Opens, t, n)
    {
      StopIsLawful(t, n);
    }
    assert forall t, n, i :: SuffixLaw(Opens, t, n, i);
    assert forall a, b, i :: AppendLaw(Opens, a, b, i);
  }

  // ----------------------------------------------------------------- the code

  lemma {:induction false} FirstCloseAt(t: string, j: nat)
    requires ClosesAt(t, j) && forall i: nat :: i < j ==> !ClosesAt(t, i)
    ensures FirstClose(t) == j
  {
    if j > 0 {
      assert ClosesAt(t[1..], j - 1);
      forall i: nat | i < j - 1
        ensures !ClosesAt(t[1..], i)
      {
        assert ClosesAt(t, i + 1) <==> ClosesAt(t[1..], i);
      }
      FirstCloseAt(t[1..], j - 1);
    }
  }

  lemma {:induction false} FirstCloseNone(t: string)
    requires forall i: nat :: !ClosesAt(t, i)
    ensures FirstClose(t) == -1
  {
    if |t| >= 8 {
      forall i: nat
        ensures !ClosesAt(t[1..], i)
      {
        assert ClosesAt(t, i + 1) <==> ClosesAt(t[1..], i);
      }
      FirstCloseNone(t[1..]);
    }
  }

  /** indexFold for the closing tag: jump from "<" to "<". */
  method IndexClose(src: string) returns (r: int)
    ensures r == FirstClose(src)
  {
    var i := 0;
    while i + 8 <= |src|
      invariant 0 <= i <= |src|
      invariant forall k: nat :: k < i ==> !ClosesAt(src, k)
    {
      var idx := IndexByte(src[i..], '<');
      if idx < 0 {
        forall k: nat
          ensures !ClosesAt(src, k)
        {
          assert i <= k < |src| ==> src[k] == src[i..][k - i];
        }
        FirstCloseNone(src);
        return -1;
      }
      var j := i + idx;
      forall k: nat | k < j
        ensures !ClosesAt(src, k)
      {
        assert i <= k ==> src[k] == src[i..][..idx][k - i];
      }
      if ClosesAt(src, j) {
        FirstCloseAt(src, j);
        return j;
      }
      i := j + 1;
    }
    FirstCloseNone(src);
    return -1;
  }

  /** One turn of findTitleSpans' cursor loop, with its early exits. */
  method LookFrom(rest: string) returns (l: Look)
    ensures l == LookAt(rest)
  {
    var open := IndexByte(rest, '<');
    if open < 0 {
      return Stop;
    }
    var after := open + 6;
    if after >= |rest| {
      return Stop;
    }
    if !TitleLetters(rest, open + 1) {
      return Skip(open + 1);
    }
    if !IsDelimiter(rest[after]) {
      return Skip(after);
    }
    var end := FindEnd(rest[open..]);
    return if end.None? then Stop else Found(open, end.value);
  }

  /** The rest of that turn: the end of the opening tag, then the closing tag. */
  method FindEnd(tag: string) returns (end: Option<nat>)
    requires Opens(tag, 0)
    ensures end == TitleEnd(tag)
  {
    var gt := IndexByte(tag[6..], '>');
    if gt < 0 {
      return None;
    }
    var close := IndexClose(tag[6 + gt + 1..]);
    if close < 0 {
      return None;
    }
    return Some(6 + gt + 1 + close + 8);
  }

  /** The titles of a text. */
  function Titles(src: string): seq<Span> {
    Scan(LookAt, src)
  }

  /** The cursor loop. */
  method ScanTitles(src: string) returns (out: seq<Region>)
    ensures out == Regions(Titles(src), 0)
  {
    TitleScanner();
    ScanStart(LookAt, src);
    out := [];
    var cursor, done := 0, false;
    while !done
      invariant !done ==> 0 <= cursor <= |src| && Progress(LookAt, src, out, cursor)
      invariant done ==> out == Regions(Titles(src), 0)
      decreases if done then 0 else 1 + |src| - cursor
    {
      var l := LookFrom(src[cursor..]);
      done, out, cursor := Turn(LookAt, Opens, l, src, out, cursor);
    }
  }

  /** findTitleSpans: every title, the positions in bounds, in order, disjoint and not empty. */
  method FindTitleSpans(src: string) returns (out: seq<Region>)
    ensures out == Regions(Titles(src), 0)
    ensures Ordered(out, 0, |src|)
  {
    out := ScanTitles(src);
    ScanFits(LookAt, src);
    PositionsOrdered(Titles(src), src, out);
  }

  /** dedupeTitle: the input with exactly all but the last span removed. */
  method DedupeTitle(src: string) returns (out: string)
    ensures out == Cut(Titles(src), src)
  {
    var matches := FindTitleSpans(src);
    ScanFits(LookAt, src);
    out := CutRegions(src, Titles(src), matches);
  }

  // ------------------------------------------------------- what counts as a title

  function Folded(s: string): string {
    seq(|s|, i requires 0 <= i < |s| => ToLower(s[i]))
  }

  lemma FoldedText(s: string, text: string)
    requires |s| == |text|
    ensures Folded(s) == text <==> forall i :: 0 <= i < |s| ==> ToLower(s[i]) == text[i]
  {
    if forall i :: 0 <= i < |s| ==> ToLower(s[i]) == text[i] {
      assert forall i :: 0 <= i < |s| ==> Folded(s)[i] == text[i];
    } else {
      var i :| 0 <= i < |s| && ToLower(s[i]) != text[i];
      assert Folded(s)[i] != text[i];
    }
  }

  lemma ClosingTag(t: string, i: nat)
    ensures ClosesAt(t, i) <==> i + 8 <= |t| && Folded(t[i..i + 8]) == "</title>"
  {
    if i + 8 <= |t| {
      FoldedText(t[i..i + 8], "</title>");
    }
  }

  lemma OpeningTag(t: string, i: nat)
    ensures TitleAt(t, i) <==> i + 6 < |t| && Folded(t[i..i + 6]) == "<title"
  {
    if i + 6 < |t| {
      FoldedText(t[i..i + 6], "<title");
    }
  }

  /** A closing tag is "</title>" in any case, an opening one "<title" in any case and a delimiter. */
  lemma TagsExactly(t: string, i: nat)
    ensures ClosesAt(t, i) <==> i + 8 <= |t| && Folded(t[i..i + 8]) == "</title>"
    ensures Opens(t, i) <==>
      i + 6 < |t| && Folded(t[i..i + 6]) == "<title" && t[i + 6] in {'>', ' ', '\t', '\n', '\r', '/'}
  {
    ClosingTag(t, i);
    OpeningTag(t, i);
  }

  /** A title from the start of t up to e: its tag ends at the first ">", g, and the first closing tag behind g at e. */
  predicate IsTitle(t: string, g: nat, e: nat) {
    && 6 <= g
    && g + 9 <= e <= |t|
    && t[g] == '>'
    && (forall k :: 6 <= k < g ==> t[k] != '>')
    && ClosesAt(t, e - 8)
    && (forall k: nat :: g < k < e - 8 ==> !ClosesAt(t, k))
  }

  lemma ClosesLater(t: string, n: nat, i: nat)
    requires n <= |t|
    ensures ClosesAt(t[n..], i) <==> ClosesAt(t, n + i)
  {
  }

  lemma TagEnds(t: string, g: nat)
    requires 6 <= g < |t| && t[g] == '>' && forall k :: 6 <= k < g ==> t[k] != '>'
    ensures IndexByte(t[6..], '>') == g - 6
  {
    assert t[6..] == t[6..g] + ['>'] + t[g + 1..];
    IndexByteOf(t[6..g], '>', t[g + 1..]);
  }

  lemma TitleHasEnd(t: string, g: nat, e: nat)
    requires Opens(t, 0) && IsTitle(t, g, e)
    ensures TitleEnd(t) == Some(e)
  {
    TagEnds(t, g);
    var rest, n := t[g + 1..], e - 8 - (g + 1);
    ClosesLater(t, g + 1, n);
    forall i: nat | i < n
      ensures !ClosesAt(rest, i)
    {
      ClosesLater(t, g + 1, i);
    }
    FirstCloseAt(rest, n);
  }

  lemma {:induction false} FirstCloseCloses(t: string)
    ensures FirstClose(t) >= 0 ==> ClosesAt(t, FirstClose(t)) && forall i: nat :: i < FirstClose(t) ==> !ClosesAt(t, i)
  {
    if |t| >= 8 && !ClosesAt(t, 0) {
      FirstCloseCloses(t[1..]);
      forall i: nat
        ensures ClosesAt(t[1..], i) <==> ClosesAt(t, i + 1)
      {
        ClosesLater(t, 1, i);
      }
      if FirstClose(t) >= 0 {
        forall i: nat | i < FirstClose(t)
          ensures !ClosesAt(t, i)
        {
          assert i > 0 ==> !ClosesAt(t[1..], i - 1);
        }
      }
    }
  }

  lemma FirstInSuffix(t: string, n: nat, k: nat, c: char)
    requires n <= |t| && IndexByte(t[n..], c) >= 0 && k == n + IndexByte(t[n..], c)
    ensures n <= k < |t| && t[k] == c && forall i :: n <= i < k ==> t[i] != c
  {
    forall i | n <= i < k
      ensures t[i] != c
    {
      assert t[i] == t[n..][..k - n][i - n];
    }
  }

  lemma ClosesInSuffix(t: string, n: nat, close: nat)
    requires n <= |t| && ClosesAt(t[n..], close) && forall i: nat :: i < close ==> !ClosesAt(t[n..], i)
    ensures ClosesAt(t, n + close) && forall k: nat :: n <= k < n + close ==> !ClosesAt(t, k)
  {
    ClosesLater(t, n, close);
    forall k: nat | n <= k < n + close
      ensures !ClosesAt(t, k)
    {
      ClosesLater(t, n, k - n);
    }
  }

  lemma EndIsTitle(t: string) returns (g: nat)
    requires Opens(t, 0) && TitleEnd(t).Some?
    ensures IsTitle(t, g, TitleEnd(t).value)
  {
    g := 6 + IndexByte(t[6..], '>');
    var close := EndParts(t, g);
    FirstInSuffix(t, 6, g, '>');
    FirstCloseCloses(t[g + 1..]);
    ClosesInSuffix(t, g + 1, close);
    MakesTitle(t, g, g + 1 + close + 8);
  }

  lemma EndParts(t: string, g: nat) returns (close: nat)
    requires Opens(t, 0) && TitleEnd(t).Some? && g == 6 + IndexByte(t[6..], '>')
    ensures 6 <= g < |t| && FirstClose(t[g + 1..]) == close && TitleEnd(t) == Some(g + 1 + close + 8)
  {
    close := FirstClose(t[g + 1..]);
  }

  lemma MakesTitle(t: string, g: nat, e: nat)
    requires 6 <= g && g + 9 <= e <= |t| && t[g] == '>' && (forall k :: 6 <= k < g ==> t[k] != '>')
    requires ClosesAt(t, e - 8) && forall k: nat :: g + 1 <= k < e - 8 ==> !ClosesAt(t, k)
    ensures IsTitle(t, g, e)
  {
  }

  /** TitleEnd is where the title ends, and nothing when it is not closed. */
  lemma TitleEndExactly(t: string, e: nat)
    requires Opens(t, 0)
    ensures TitleEnd(t) == Some(e) <==> exists g :: IsTitle(t, g, e)
  {
    if TitleEnd(t) == Some(e) {
      var g := EndIsTitle(t);
    }
    if g :| IsTitle(t, g, e) {
      TitleHasEnd(t, g, e);
    }
  }

  /** Where the tag at the start of a text ends, if one opens there. */
  function TagEnd(t: string): Option<nat> {
    if Opens(t, 0) then TitleEnd(t) else None
  }

  lemma OpensSuffix(t: string, n: nat)
    requires n <= |t|
    ensures Opens(t[n..], 0) <==> Opens(t, n)
  {
  }

  lemma LookEnds(t: string)
    ensures EndLaw(LookAt, Opens, TagEnd, t)
  {
    var i := IndexByte(t, '<');
    if i >= 0 && i + 6 < |t| && Opens(t, i) {
      OpensSuffix(t, i);
      assert FirstOpener(Opens, t, i);
      forall n: nat | FirstOpener(Opens, t, n)
        ensures n == i
      {
      }
    } else if LookAt(t).Stop? {
      assert NoneOpens(Opens, t, |t|);
    }
  }

  /**
   The titles of a text, from the left: none when no tag opens, none when the first that opens is
   not closed, and otherwise that title and those behind it.
   */
  lemma TitlesExactly(t: string, n: nat)
    ensures NoneOpens(Opens, t, |t|) ==> Titles(t) == []
    ensures FirstOpener(Opens, t, n) ==> Decided(LookAt, TagEnd, t, n)
  {
    TitleScanner();
    forall s
      ensures EndLaw(LookAt, Opens, TagEnd, s)
    {
      LookEnds(s);
    }
    if NoneOpens(Opens, t, |t|) {
      NothingOpens(LookAt, Opens, t);
    }
    if FirstOpener(Opens, t, n) {
      FirstOpenerDecides(LookAt, Opens, TagEnd, t, n);
    }
  }

  /** What deduplication leaves: all the text between titles, the last title, and the text behind it. */
  lemma DedupeKeeps(src: string)
    requires |Titles(src)| > 0
    ensures Fits(Titles(src), src) && |Bodies(Titles(src), src)| == |Gaps(Titles(src), src)| == |Titles(src)|
    ensures src == Woven(Gaps(Titles(src), src), Bodies(Titles(src), src)) + Tail(Titles(src), src)
    ensures Cut(Titles(src), src)
         == Concat(Gaps(Titles(src), src)) + Bodies(Titles(src), src)[|Titles(src)| - 1] + Tail(Titles(src), src)
  {
    ScanFits(LookAt, src);
    TakenApart(Titles(src), src);
    CutKeeps(Titles(src), src);
  }

  // --------------------------------------------------------------- idempotence

  /** Rescanning the result finds exactly the last title if and only if the text joined before it opens none. */
  lemma RescanFindsLastTitle(src: string)
    requires |Titles(src)| > 0
    ensures var ss := Titles(src); var front := Before(ss, src);
      Titles(front + LastPart(ss, src)) == [Span(|front|, ss[|ss| - 1].len)] <==> NoneOpens(Opens, front, |front|)
  {
    TitleScanner();
    RescanExactly(LookAt, Opens, src);
  }

  /** Deduplicating again changes nothing if and only if the first pass left at most one title. */
  lemma DedupeTwiceExactly(src: string)
    ensures var once := Cut(Titles(src), src);
      Cut(Titles(once), once) == once <==> |Titles(once)| <= 1
  {
    CutTwiceExactly(LookAt, src);
  }

  /** That is so when the joined text opens none. */
  lemma DedupeTwice(src: string)
    requires |Titles(src)| > 0 && NoneOpens(Opens, Before(Titles(src), src), |Before(Titles(src), src)|)
    ensures var once := Cut(Titles(src), src); |Titles(once)| == 1 && Cut(Titles(once), once) == once
  {
    TitleScanner();
    OneSpanLeft(LookAt, Opens, src);
    DedupeTwiceExactly(src);
  }

  // -------------------------------------------- when nothing can be glued together

  /** Every "<" has a ">" behind it. */
  predicate TagsClosed(gap: string) {
    forall i :: 0 <= i < |gap| && gap[i] == '<' ==> '>' in gap[i..]
  }

  lemma ClosedGapGluesNothing(gap: string, rest: string)
    requires TagsClosed(gap) && NoneOpens(Opens, gap, |gap|) && NoneOpens(Opens, rest, |rest|)
    ensures NoneOpens(Opens, gap + rest, |gap + rest|)
  {
    var t := gap + rest;
    forall i: nat | i < |t|
      ensures !Opens(t, i)
    {
      if i >= |gap| {
        assert Opens(t, i) ==> Opens(rest, i - |gap|);
      } else if gap[i] == '<' {
        var p :| 0 <= p < |gap[i..]| && gap[i..][p] == '>';
        assert t[i + p] == '>';
        assert Opens(t, i) ==> Opens(gap, i);
      }
    }
  }

  /**
   When every gap between two titles has its tags closed, deduplication leaves exactly one
   title and is idempotent.
   */
  lemma ClosedGapsDedupe(src: string)
    requires |Titles(src)| > 0 && GapsClosed(TagsClosed, Titles(src), src)
    ensures var once := Cut(Titles(src), src); |Titles(once)| == 1 && Cut(Titles(once), once) == once
  {
    TitleScanner();
    forall gap, rest
      ensures GlueLaw(Opens, TagsClosed, gap, rest)
    {
      if TagsClosed(gap) && NoneOpens(Opens, gap, |gap|) && NoneOpens(Opens, rest, |rest|) {
        ClosedGapGluesNothing(gap, rest);
      }
    }
    ClosedGapsOpenNothing(LookAt, Opens, TagsClosed, src);
    DedupeTwice(src);
  }

  /** The shortest title, and what behind "<ti" and a cut title makes a new one. */
  const TITLE := "<title></title>"
  const BACK := "tle></title>"

  lemma TitleFirst(rest: string)
    ensures LookAt(TITLE + rest) == Found(0, 15)
  {
    var t := TITLE + rest;
    assert t[0] == '<' && IndexByte(t, '<') == 0;
    assert t[0..] == t;
    TitleEnds(t, rest);
  }

  lemma TitleEnds(t: string, rest: string)
    requires t == TITLE + rest
    ensures Opens(t, 0) && TitleEnd(t) == Some(15)
  {
    assert forall i :: 0 <= i < 15 ==> t[i] == TITLE[i];
    assert Opens(t, 0);
    assert t[6..][0] == '>' && IndexByte(t[6..], '>') == 0;
    assert ClosesAt(t[7..], 0);
    assert FirstClose(t[7..]) == 0;
  }

  lemma LessAt(pre: string, rest: string)
    requires '<' !in pre && |rest| > 0 && rest[0] == '<'
    ensures IndexByte(pre + rest, '<') == |pre|
  {
    assert pre + rest == pre + ['<'] + rest[1..];
    IndexByteOf(pre, '<', rest[1..]);
  }

  /** Text without "<" put before a title only moves it. */
  lemma PlainFirst(pre: string, rest: string)
    requires '<' !in pre && |rest| > 0 && rest[0] == '<' && LookAt(rest) == Found(0, 15)
    ensures LookAt(pre + rest) == Found(|pre|, 15)
  {
    LessAt(pre, rest);
    assert (pre + rest)[|pre|..] == rest && rest[0..] == rest;
  }

  /** A scan that meets a title after plain text. */
  lemma PlainThenTitle(pre: string, rest: string)
    requires '<' !in pre
    ensures Titles(pre + (TITLE + rest)) == [Span(|pre|, 15)] + Titles(rest)
  {
    TitleFirst(rest);
    PlainFirst(pre, TITLE + rest);
    assert pre + (TITLE + rest) == (pre + TITLE) + rest;
    ScanFound(LookAt, pre + (TITLE + rest), pre + TITLE, rest, |pre|, 15);
  }

  lemma NoTitle()
    ensures Titles("") == []
  {
  }

  lemma LookBack(rest: string)
    ensures LookAt(BACK + rest) == Skip(5)
  {
    var t := BACK + rest;
    assert t == "tle>" + ("</title>" + rest);
    LessAt("tle>", "</title>" + rest);
    assert t[5] == '/';
  }

  lemma BackParts(t: string)
    requires t == BACK + TITLE
    ensures t == "tle><" + ("/title>" + (TITLE + ""))
  {
  }

  lemma BackScans(t: string)
    requires t == BACK + TITLE
    ensures Titles(t) == [Span(12, 15)]
  {
    NoTitle();
    PlainThenTitle("/title>", "");
    LookBack(TITLE);
    BackParts(t);
    ScanSkip(LookAt, t, "tle><", "/title>" + (TITLE + ""), Span(7, 15), []);
  }

  lemma LookGlued(rest: string)
    ensures LookAt("<ti" + TITLE + rest) == Skip(1)
  {
  }

  lemma GluedParts(back: string)
    ensures "<ti" + TITLE + back == "<" + ("ti" + (TITLE + back))
  {
  }

  lemma GluedScan(back: string)
    requires Titles(back) == [Span(12, 15)]
    ensures Titles("<ti" + TITLE + back) == [Span(3, 15), Span(12, 15)]
  {
    LookGlued(back);
    PlainThenTitle("ti", back);
    GluedParts(back);
    ScanSkip(LookAt, "<ti" + TITLE + back, "<", "ti" + (TITLE + back), Span(2, 15), Titles(back));
  }

  lemma TwoTitles()
    ensures Titles(TITLE + TITLE) == [Span(0, 15), Span(0, 15)]
  {
    NoTitle();
    PlainThenTitle("", "");
    PlainThenTitle("", TITLE);
    assert TITLE + "" == TITLE && "" + TITLE == TITLE && "" + (TITLE + TITLE) == TITLE + TITLE;
  }

  lemma GluedCut(t: string)
    requires t == "<ti" + TITLE + (BACK + TITLE)
    ensures Cut([Span(3, 15), Span(12, 15)], t) == TITLE + TITLE
  {
    CutFirst("<ti", TITLE, BACK, TITLE, t);
    assert "<ti" + BACK == TITLE;
  }

  ghost predicate HasTwoTitles(t: string) {
    |Titles(t)| == 2
  }

  /** Two titles; with the first cut out there are two again, so deduplicating is not idempotent here. */
  lemma GluedTitles() returns (t: string)
    ensures HasTwoTitles(t) && HasTwoTitles(Cut(Titles(t), t))
  {
    var back := BACK + TITLE;
    BackScans(back);
    t := "<ti" + TITLE + back;
    GluedScan(back);
    GluedCut(t);
    TwoTitles();
  }
}
