/**
 Cutting all but the last of the spans a left-to-right scanner finds, for any
 scanner that looks at a text and either stops, moves on, or finds a span.
 */
module SpanCutting {
  import opened Text

  /** What the scanner sees from where it stands. */
  datatype Look = Stop | Skip(n: nat) | Found(gap: nat, len: nat)

  /** One span found by a scan: the bytes skipped before it, and its own length. */
  datatype Span = Span(gap: nat, len: nat)

  type Looker = string -> Look
  type Opener = (string, nat) -> bool

  /** The same spans seen from n bytes earlier. */
  function Widen(ss: seq<Span>, n: nat): seq<Span> {
    if |ss| == 0 then [] else [Span(ss[0].gap + n, ss[0].len)] + ss[1..]
  }

  /** The spans lie in the text, one behind the other. */
  predicate Fits(ss: seq<Span>, t: string) {
    |ss| == 0 || (0 < ss[0].len && ss[0].gap + ss[0].len <= |t| && Fits(ss[1..], t[ss[0].gap + ss[0].len..]))
  }

  lemma WidenFits(ss: seq<Span>, t: string, n: nat)
    requires n <= |t| && Fits(ss, t[n..])
    ensures Fits(Widen(ss, n), t)
  {
  }

  /** All spans of a text, left to right. */
  function Scan(look: Looker, t: string): seq<Span>
    decreases |t|
  {
    match look(t)
    case Stop => []
    case Skip(n) => if 0 < n <= |t| then Widen(Scan(look, t[n..]), n) else []
    case Found(gap, len) =>
      if 0 < len && gap + len <= |t| then [Span(gap, len)] + Scan(look, t[gap + len..]) else []
  }

  lemma ScanFound(look: Looker, t: string, a: string, b: string, gap: nat, len: nat)
    requires t == a + b && |a| == gap + len && 0 < len && look(t) == Found(gap, len)
    ensures Scan(look, t) == [Span(gap, len)] + Scan(look, b)
  {
  }

  lemma ScanSkip(look: Looker, t: string, a: string, b: string, h: Span, rest: seq<Span>)
    requires t == a + b && 0 < |a| && look(t) == Skip(|a|) && Scan(look, b) == [h] + rest
    ensures Scan(look, t) == [Span(h.gap + |a|, h.len)] + rest
  {
  }

  lemma {:induction false} ScanFits(look: Looker, t: string)
    ensures Fits(Scan(look, t), t)
    decreases |t|
  {
    match look(t)
    case Stop =>
    case Skip(n) =>
      if 0 < n <= |t| {
        ScanFits(look, t[n..]);
        WidenFits(Scan(look, t[n..]), t, n);
      }
    case Found(gap, len) =>
      if 0 < len && gap + len <= |t| {
        ScanFits(look, t[gap + len..]);
        assert Scan(look, t)[1..] == Scan(look, t[gap + len..]);
      }
  }

  // -------------------------------------------------------- laws of a scanner

  ghost predicate NoneOpens(opens: Opener, t: string, n: nat) {
    forall i: nat :: i < n ==> !opens(t, i)
  }

  ghost predicate LookLaw(look: Looker, opens: Opener, t: string) {
    match look(t)
    case Stop => true
    case Skip(n) => 0 < n <= |t| && NoneOpens(opens, t, n)
    case Found(gap, len) =>
      && 0 < len
      && gap + len <= |t|
      && NoneOpens(opens, t, gap)
      && opens(t, gap)
      && look(t[gap..]) == Found(0, len)
  }

  /** Whether something opens at a place depends on the bytes from there on. */
  ghost predicate SuffixLaw(opens: Opener, t: string, n: nat, i: nat) {
    n <= i < |t| ==> (opens(t, i) <==> opens(t[n..], i - n))
  }

  /** Text put behind keeps an opener, and makes a new one neither in b nor across its start when b opens. */
  ghost predicate AppendLaw(opens: Opener, a: string, b: string, i: nat) {
    i < |a| && |b| > 0 ==> (opens(a, i) ==> opens(a + b, i)) && (opens(b, 0) && opens(a + b, i) ==> opens(a, i))
  }

  /** The scanner does not give up before a place where something opens, unless it gives up there too. */
  ghost predicate StopLaw(look: Looker, opens: Opener, t: string, n: nat) {
    look(t).Stop? && n < |t| && opens(t, n) && NoneOpens(opens, t, n) ==> look(t[n..]).Stop?
  }

  ghost predicate Scanner(look: Looker, opens: Opener) {
    && (forall t :: LookLaw(look, opens, t))
    && (forall t, n :: StopLaw(look, opens, t, n))
    && (forall t, n, i :: SuffixLaw(opens, t, n, i))
    && (forall a, b, i :: AppendLaw(opens, a, b, i))
  }

  // --------------------------------------------------------------- structure

  ghost predicate Opening(opens: Opener, t: string, h: Span) {
    0 < h.len && h.gap + h.len <= |t| && opens(t, h.gap) && NoneOpens(opens, t, h.gap)
  }

  lemma OpeningMoves(look: Looker, opens: Opener, t: string, n: nat, h: Span)
    requires Scanner(look, opens) && n <= |t| && NoneOpens(opens, t, n) && Opening(opens, t[n..], h)
    ensures Opening(opens, t, Span(h.gap + n, h.len))
  {
    assert SuffixLaw(opens, t, n, n + h.gap);
    forall i: nat | i < h.gap + n
      ensures !opens(t, i)
    {
      assert SuffixLaw(opens, t, n, i);
    }
  }

  lemma Slice(t: string, n: nat, k: nat)
    requires n + k <= |t|
    ensures t[n..][k..] == t[n + k..]
  {
  }

  /** The first span of a scan opens first, the rest is what is scanned after it, and a scan from it agrees. */
  ghost predicate FirstIs(look: Looker, opens: Opener, t: string, h: Span) {
    && Opening(opens, t, h)
    && Scan(look, t) == [h] + Scan(look, t[h.gap + h.len..])
    && Scan(look, t[h.gap..]) == [Span(0, h.len)] + Scan(look, t[h.gap + h.len..])
  }

  lemma ScanMoves(look: Looker, t: string, n: nat, h: Span)
    requires look(t) == Skip(n) && 0 < n <= |t| && h.gap + h.len <= |t| - n
    requires Scan(look, t[n..]) == [h] + Scan(look, t[n..][h.gap + h.len..])
    ensures Scan(look, t) == [Span(h.gap + n, h.len)] + Scan(look, t[n + (h.gap + h.len)..])
  {
  }

  /** Where the scan goes on behind a span that n bytes were skipped before. */
  lemma SameSlices(t: string, n: nat, h: Span)
    requires n + h.gap + h.len <= |t|
    ensures t[n..][h.gap..] == t[h.gap + n..] && t[n..][h.gap + h.len..] == t[h.gap + n + h.len..]
  {
    Slice(t, n, h.gap);
    Slice(t, n, h.gap + h.len);
  }

  lemma FirstMoves(look: Looker, opens: Opener, t: string, n: nat, h: Span)
    requires Scanner(look, opens) && look(t) == Skip(n) && 0 < n <= |t| && NoneOpens(opens, t, n)
    requires FirstIs(look, opens, t[n..], h)
    ensures FirstIs(look, opens, t, Span(h.gap + n, h.len))
  {
    OpeningMoves(look, opens, t, n, h);
    SameSlices(t, n, h);
    ScanMoves(look, t, n, h);
  }

  lemma FirstFound(look: Looker, opens: Opener, t: string, h: Span)
    requires Scanner(look, opens) && look(t) == Found(h.gap, h.len) && LookLaw(look, opens, t)
    ensures FirstIs(look, opens, t, h)
  {
  }

  lemma {:induction false} FirstSpan(look: Looker, opens: Opener, t: string)
    requires Scanner(look, opens) && |Scan(look, t)| > 0
    ensures FirstIs(look, opens, t, Scan(look, t)[0])
    decreases |t|
  {
    assert LookLaw(look, opens, t);
    match look(t)
    case Stop =>
    case Skip(n) =>
      FirstSpan(look, opens, t[n..]);
      FirstMoves(look, opens, t, n, Scan(look, t[n..])[0]);
    case Found(gap, len) => FirstFound(look, opens, t, Span(gap, len));
  }

  // ------------------------------------------------------------------ cutting

  /** The text before the last of the spans, with the earlier ones cut out. */
  function Before(ss: seq<Span>, t: string): string {
    if |ss| == 0 || ss[0].gap + ss[0].len > |t| then ""
    else if |ss| == 1 then t[..ss[0].gap]
    else t[..ss[0].gap] + Before(ss[1..], t[ss[0].gap + ss[0].len..])
  }

  /** The text from the last of the spans on. */
  function LastPart(ss: seq<Span>, t: string): string {
    if |ss| == 0 || ss[0].gap + ss[0].len > |t| then t
    else if |ss| == 1 then t[ss[0].gap..]
    else LastPart(ss[1..], t[ss[0].gap + ss[0].len..])
  }

  /** All but the last span removed. */
  function Cut(ss: seq<Span>, t: string): string {
    if |ss| <= 1 then t else Before(ss, t) + LastPart(ss, t)
  }

  ghost predicate Lone(look: Looker, opens: Opener, t: string, len: nat) {
    |t| > 0 && opens(t, 0) && Scan(look, t) == [Span(0, len)]
  }

  lemma LoneScans(look: Looker, opens: Opener, t: string, h: Span)
    requires Scanner(look, opens) && FirstIs(look, opens, t, h) && Scan(look, t[h.gap + h.len..]) == []
    ensures Lone(look, opens, t[h.gap..], h.len)
  {
    assert SuffixLaw(opens, t, h.gap, h.gap);
  }

  lemma LastPartStep(h: Span, rest: seq<Span>, t: string)
    requires h.gap + h.len <= |t|
    ensures LastPart([h] + rest, t) == if rest == [] then t[h.gap..] else LastPart(rest, t[h.gap + h.len..])
  {
  }

  /** Cutting the first of two spans. */
  lemma CutFirst(a: string, x: string, b: string, y: string, t: string)
    requires t == a + x + (b + y) && |y| > 0
    ensures Cut([Span(|a|, |x|), Span(|b|, |y|)], t) == (a + b) + y
  {
    var second, u := Span(|b|, |y|), b + y;
    var ss := [Span(|a|, |x|), second];
    assert ss[1..] == [second];
    assert t[..|a|] == a && t[|a| + |x|..] == u;
    assert u[..|b|] == b && u[|b|..] == y;
    assert Before([second], u) == b && LastPart([second], u) == y;
    assert Before(ss, t) == a + b && LastPart(ss, t) == y;
  }

  /** Scanning from the last span on finds just that span, at once. */
  lemma {:induction false} LastPartScans(look: Looker, opens: Opener, t: string, ss: seq<Span>)
    requires Scanner(look, opens) && |ss| > 0 && ss == Scan(look, t)
    ensures Lone(look, opens, LastPart(ss, t), ss[|ss| - 1].len)
    decreases |t|
  {
    FirstSpan(look, opens, t);
    var h, rest := ss[0], ss[1..];
    assert ss == [h] + rest;
    LastPartStep(h, rest, t);
    LastPartTail(look, opens, t, h, rest);
  }

  lemma LastPartTail(look: Looker, opens: Opener, t: string, h: Span, rest: seq<Span>)
    requires Scanner(look, opens) && FirstIs(look, opens, t, h) && Scan(look, t) == [h] + rest
    ensures rest == [] ==> Lone(look, opens, t[h.gap..], h.len)
    ensures rest != [] ==> Lone(look, opens, LastPart(rest, t[h.gap + h.len..]), rest[|rest| - 1].len)
    decreases |t|, 0
  {
    assert rest == Scan(look, t)[1..] == Scan(look, t[h.gap + h.len..]);
    if rest == [] {
      LoneScans(look, opens, t, h);
    } else {
      LastPartScans(look, opens, t[h.gap + h.len..], rest);
    }
  }

  ghost predicate FirstOpener(opens: Opener, t: string, n: nat) {
    n < |t| && NoneOpens(opens, t, n) && opens(t, n)
  }

  /** A scan passes over a prefix in which nothing opens. */
  lemma {:induction false} PassOver(look: Looker, opens: Opener, t: string, n: nat)
    requires Scanner(look, opens) && FirstOpener(opens, t, n) && |Scan(look, t[n..])| > 0
    ensures Scan(look, t) == Widen(Scan(look, t[n..]), n)
    decreases |t|
  {
    assert LookLaw(look, opens, t) && StopLaw(look, opens, t, n);
    match look(t)
    case Stop =>
    case Skip(k) =>
      PassSuffix(look, opens, t, n, k);
      Slice(t, k, n - k);
      PassOver(look, opens, t[k..], n - k);
      WidenTwice(Scan(look, t[n..]), n - k, k);
    case Found(gap, len) => PassFound(look, opens, t, n, Span(gap, len));
  }

  lemma PassFound(look: Looker, opens: Opener, t: string, n: nat, h: Span)
    requires Scanner(look, opens) && FirstOpener(opens, t, n) && look(t) == Found(h.gap, h.len)
    ensures Scan(look, t) == Widen(Scan(look, t[n..]), n)
  {
    assert LookLaw(look, opens, t);
    FirstFound(look, opens, t, h);
  }

  lemma WidenTwice(ss: seq<Span>, a: nat, b: nat)
    ensures Widen(Widen(ss, a), b) == Widen(ss, a + b)
  {
  }

  lemma PassSuffix(look: Looker, opens: Opener, t: string, n: nat, k: nat)
    requires Scanner(look, opens) && FirstOpener(opens, t, n) && k <= |t| && NoneOpens(opens, t, k)
    ensures k <= n && FirstOpener(opens, t[k..], n - k)
  {
    assert SuffixLaw(opens, t, k, n);
    forall i: nat | i < n - k
      ensures !opens(t[k..], i)
    {
      assert SuffixLaw(opens, t, k, k + i);
    }
  }

  // ------------------------------------------------------- what a scan finds

  type Ender = string -> Option<nat>

  /** The look agrees with the openers, and with where what opens ends. */
  ghost predicate EndLaw(look: Looker, opens: Opener, end: Ender, t: string) {
    match look(t)
    case Stop => forall n: nat :: FirstOpener(opens, t, n) ==> end(t[n..]) == None
    case Skip(_) => true
    case Found(gap, len) => FirstOpener(opens, t, gap) && end(t[gap..]) == Some(len)
  }

  lemma NoneOpensLater(look: Looker, opens: Opener, t: string, k: nat)
    requires Scanner(look, opens) && k <= |t| && NoneOpens(opens, t, |t|)
    ensures NoneOpens(opens, t[k..], |t| - k)
  {
    forall i: nat | i < |t| - k
      ensures !opens(t[k..], i)
    {
      assert SuffixLaw(opens, t, k, k + i);
    }
  }

  /** Where nothing opens there is no span. */
  lemma {:induction false} NothingOpens(look: Looker, opens: Opener, t: string)
    requires Scanner(look, opens) && NoneOpens(opens, t, |t|)
    ensures Scan(look, t) == []
    decreases |t|
  {
    assert LookLaw(look, opens, t);
    if look(t).Skip? {
      NoneOpensLater(look, opens, t, look(t).n);
      NothingOpens(look, opens, t[look(t).n..]);
    }
  }

  /** The scan has the span that opens at n, or none when that has no end. */
  ghost predicate Decided(look: Looker, end: Ender, t: string, n: nat)
    requires n <= |t|
  {
    match end(t[n..])
    case None => Scan(look, t) == []
    case Some(e) => n + e <= |t| && Scan(look, t) == [Span(n, e)] + Scan(look, t[n + e..])
  }

  lemma FoundDecides(look: Looker, opens: Opener, end: Ender, t: string, n: nat)
    requires LookLaw(look, opens, t) && EndLaw(look, opens, end, t) && FirstOpener(opens, t, n) && !look(t).Skip?
    ensures Decided(look, end, t, n)
  {
    if look(t).Found? {
      assert look(t).gap == n;
    }
  }

  /** The first opener decides: no span at all when it has no end, else its span and those behind it. */
  lemma {:induction false} FirstOpenerDecides(look: Looker, opens: Opener, end: Ender, t: string, n: nat)
    requires Scanner(look, opens) && (forall s :: EndLaw(look, opens, end, s)) && FirstOpener(opens, t, n)
    ensures Decided(look, end, t, n)
    decreases |t|
  {
    assert LookLaw(look, opens, t) && EndLaw(look, opens, end, t);
    if look(t).Skip? {
      var k := look(t).n;
      PassSuffix(look, opens, t, n, k);
      FirstOpenerDecides(look, opens, end, t[k..], n - k);
      SkipDecides(look, end, t, k, n);
    } else {
      FoundDecides(look, opens, end, t, n);
    }
  }

  lemma SkipDecides(look: Looker, end: Ender, t: string, k: nat, n: nat)
    requires k <= n <= |t| && 0 < k && look(t) == Skip(k) && Decided(look, end, t[k..], n - k)
    ensures Decided(look, end, t, n)
  {
    Slice(t, k, n - k);
    if end(t[n..]).Some? {
      SkippedSpan(look, t, k, n, end(t[n..]).value);
    }
  }

  lemma SkippedSpan(look: Looker, t: string, k: nat, n: nat, e: nat)
    requires k <= n && n + e <= |t| && 0 < k && look(t) == Skip(k)
    requires Scan(look, t[k..]) == [Span(n - k, e)] + Scan(look, t[k..][n - k + e..])
    ensures Scan(look, t) == [Span(n, e)] + Scan(look, t[n + e..])
  {
    Slice(t, k, n - k + e);
  }

  lemma AppendedOpeners(look: Looker, opens: Opener, a: string, b: string)
    requires Scanner(look, opens) && |b| > 0 && opens(b, 0)
    ensures NoneOpens(opens, a + b, |a|) <==> NoneOpens(opens, a, |a|)
    ensures opens(a + b, |a|)
  {
    assert SuffixLaw(opens, a + b, |a|, |a|);
    assert (a + b)[|a|..] == b;
    forall i: nat | i < |a|
      ensures opens(a, i) <==> opens(a + b, i)
    {
      assert AppendLaw(opens, a, b, i);
    }
  }

  /**
   Scanning the cut text again finds exactly the last span, where it now stands, if and only
   if nothing opens in the text that was joined before it.
   */
  lemma RescanExactly(look: Looker, opens: Opener, t: string)
    requires Scanner(look, opens) && |Scan(look, t)| > 0
    ensures var ss := Scan(look, t); var front := Before(ss, t);
      Scan(look, front + LastPart(ss, t)) == [Span(|front|, ss[|ss| - 1].len)] <==> NoneOpens(opens, front, |front|)
  {
    var ss := Scan(look, t);
    var front, last := Before(ss, t), LastPart(ss, t);
    LastPartScans(look, opens, t, ss);
    AppendedOpeners(look, opens, front, last);
    var whole := front + last;
    assert whole[|front|..] == last;
    if NoneOpens(opens, front, |front|) {
      PassOver(look, opens, whole, |front|);
    } else if |Scan(look, whole)| > 0 {
      FirstSpan(look, opens, whole);
    }
  }

  // ------------------------------------------------------- spans as positions

  datatype Region = Region(start: nat, end: nat)

  /** The spans as positions, when the scan started at `from`. */
  function Regions(ss: seq<Span>, from: nat): seq<Region> {
    if |ss| == 0 then []
    else
      var r := Region(from + ss[0].gap, from + ss[0].gap + ss[0].len);
      [r] + Regions(ss[1..], r.end)
  }

  /** In bounds, in order, disjoint and not empty. */
  predicate Ordered(rs: seq<Region>, lo: nat, hi: nat) {
    |rs| == 0 || (lo <= rs[0].start < rs[0].end <= hi && Ordered(rs[1..], rs[0].end, hi))
  }

  lemma {:induction false} RegionsOrdered(ss: seq<Span>, t: string, from: nat)
    requires Fits(ss, t)
    ensures Ordered(Regions(ss, from), from, from + |t|)
    decreases |ss|
  {
    if |ss| > 0 {
      var n := ss[0].gap + ss[0].len;
      RegionsOrdered(ss[1..], t[n..], from + n);
      RegionHead(ss, from);
    }
  }

  lemma PositionsOrdered(ss: seq<Span>, t: string, rs: seq<Region>)
    requires Fits(ss, t) && rs == Regions(ss, 0)
    ensures Ordered(rs, 0, |t|)
  {
    RegionsOrdered(ss, t, 0);
  }

  lemma {:induction false} RegionCount(ss: seq<Span>, from: nat)
    ensures |Regions(ss, from)| == |ss|
  {
    if |ss| > 0 {
      RegionCount(ss[1..], from + ss[0].gap + ss[0].len);
    }
  }

  /** A cursor loop has found `out`, and the scan from the cursor gives the rest. */
  ghost predicate Progress(look: Looker, src: string, out: seq<Region>, cursor: nat)
    requires cursor <= |src|
  {
    Regions(Scan(look, src), 0) == out + Regions(Scan(look, src[cursor..]), cursor)
  }

  lemma ScanStart(look: Looker, src: string)
    ensures Progress(look, src, [], 0)
  {
  }

  lemma SkipTurn(look: Looker, src: string, out: seq<Region>, cursor: nat, n: nat)
    requires cursor + n <= |src| && 0 < n && Progress(look, src, out, cursor) && look(src[cursor..]) == Skip(n)
    ensures Progress(look, src, out, cursor + n)
  {
  }

  lemma FoundTurn(look: Looker, src: string, out: seq<Region>, cursor: nat, gap: nat, len: nat)
    requires cursor + gap + len <= |src| && 0 < len && Progress(look, src, out, cursor)
    requires look(src[cursor..]) == Found(gap, len)
    ensures Progress(look, src, out + [Region(cursor + gap, cursor + gap + len)], cursor + gap + len)
  {
  }

  lemma StopTurn(look: Looker, src: string, out: seq<Region>, cursor: nat)
    requires cursor <= |src| && Progress(look, src, out, cursor) && look(src[cursor..]).Stop?
    ensures out == Regions(Scan(look, src), 0)
  {
  }

  /** One turn of the cursor loop, given what is seen: stop, move on, or record a span and move behind it. */
  method Turn(ghost look: Looker, ghost opens: Opener, l: Look, ghost src: string, out: seq<Region>, cursor: nat)
    returns (done: bool, out': seq<Region>, cursor': nat)
    requires Scanner(look, opens) && cursor <= |src| && Progress(look, src, out, cursor) && l == look(src[cursor..])
    ensures done ==> out' == Regions(Scan(look, src), 0)
    ensures !done ==> cursor < cursor' <= |src| && Progress(look, src, out', cursor')
  {
    assert LookLaw(look, opens, src[cursor..]);
    done, out', cursor' := false, out, cursor;
    match l
    case Stop =>
      StopTurn(look, src, out, cursor);
      done := true;
    case Skip(n) =>
      SkipTurn(look, src, out, cursor, n);
      cursor' := cursor + n;
    case Found(gap, len) =>
      FoundTurn(look, src, out, cursor, gap, len);
      out' := out + [Region(cursor + gap, cursor + gap + len)];
      cursor' := cursor + gap + len;
  }

  lemma RegionHead(ss: seq<Span>, from: nat)
    requires |ss| > 0
    ensures |Regions(ss, from)| > 0
    ensures Regions(ss, from)[0] == Region(from + ss[0].gap, from + ss[0].gap + ss[0].len)
    ensures Regions(ss, from)[1..] == Regions(ss[1..], from + ss[0].gap + ss[0].len)
  {
  }

  lemma CutOne(ss: seq<Span>, t: string)
    requires |ss| > 0 && Fits(ss, t)
    ensures Cut(ss, t) == Before(ss, t) + LastPart(ss, t)
  {
  }

  lemma CutStep(ss: seq<Span>, t: string)
    requires |ss| > 1 && Fits(ss, t)
    ensures var h := ss[0]; Cut(ss, t) == t[..h.gap] + Cut(ss[1..], t[h.gap + h.len..])
  {
    var u := t[ss[0].gap + ss[0].len..];
    CutOne(ss[1..], u);
    assert (t[..ss[0].gap] + Before(ss[1..], u)) + LastPart(ss[1..], u)
        == t[..ss[0].gap] + (Before(ss[1..], u) + LastPart(ss[1..], u));
  }

  lemma {:induction false} CutLength(ss: seq<Span>, t: string)
    requires Fits(ss, t)
    ensures |ss| > 1 ==> |Cut(ss, t)| < |t|
    decreases |ss|
  {
    if |ss| > 1 {
      CutStep(ss, t);
      CutLength(ss[1..], t[ss[0].gap + ss[0].len..]);
    }
  }

  /** Cutting again changes nothing if and only if the cut text has at most one span. */
  lemma CutTwiceExactly(look: Looker, t: string)
    ensures var once := Cut(Scan(look, t), t);
      Cut(Scan(look, once), once) == once <==> |Scan(look, once)| <= 1
  {
    var once := Cut(Scan(look, t), t);
    ScanFits(look, once);
    CutLength(Scan(look, once), once);
  }

  /** When nothing opens in the joined text, one span is left. */
  lemma OneSpanLeft(look: Looker, opens: Opener, t: string)
    requires Scanner(look, opens) && |Scan(look, t)| > 0
    requires NoneOpens(opens, Before(Scan(look, t), t), |Before(Scan(look, t), t)|)
    ensures |Scan(look, Cut(Scan(look, t), t))| == 1
  {
    if |Scan(look, t)| > 1 {
      RescanExactly(look, opens, t);
    }
  }

  // ----------------------------------------------------- what a cut leaves

  /** The text before each span, the spans, and the text behind the last of them. */
  function Gaps(ss: seq<Span>, t: string): seq<string>
    requires Fits(ss, t)
  {
    if |ss| == 0 then [] else [t[..ss[0].gap]] + Gaps(ss[1..], t[ss[0].gap + ss[0].len..])
  }

  function Bodies(ss: seq<Span>, t: string): seq<string>
    requires Fits(ss, t)
  {
    if |ss| == 0 then []
    else [t[ss[0].gap..ss[0].gap + ss[0].len]] + Bodies(ss[1..], t[ss[0].gap + ss[0].len..])
  }

  function Tail(ss: seq<Span>, t: string): string
    requires Fits(ss, t)
  {
    if |ss| == 0 then t else Tail(ss[1..], t[ss[0].gap + ss[0].len..])
  }

  /** Each gap before its body. */
  function Woven(gaps: seq<string>, bodies: seq<string>): string
    requires |gaps| == |bodies|
  {
    if |gaps| == 0 then "" else gaps[0] + bodies[0] + Woven(gaps[1..], bodies[1..])
  }

  lemma {:induction false} TakenApart(ss: seq<Span>, t: string)
    requires Fits(ss, t)
    ensures |Gaps(ss, t)| == |Bodies(ss, t)| == |ss|
    ensures t == Woven(Gaps(ss, t), Bodies(ss, t)) + Tail(ss, t)
    decreases |ss|
  {
    if |ss| > 0 {
      var h, u := ss[0], t[ss[0].gap + ss[0].len..];
      TakenApart(ss[1..], u);
      assert Gaps(ss, t)[1..] == Gaps(ss[1..], u) && Bodies(ss, t)[1..] == Bodies(ss[1..], u);
      ApartOnce(t, h.gap, h.gap + h.len, Woven(Gaps(ss[1..], u), Bodies(ss[1..], u)), Tail(ss[1..], u));
    }
  }

  lemma ApartOnce(t: string, g: nat, e: nat, w: string, tail: string)
    requires g <= e <= |t| && t[e..] == w + tail
    ensures t == t[..g] + t[g..e] + w + tail
  {
    assert t == t[..g] + t[g..e] + t[e..];
  }

  lemma OneCutKeeps(h: Span, t: string)
    requires Fits([h], t)
    ensures Gaps([h], t) == [t[..h.gap]] && Bodies([h], t) == [t[h.gap..h.gap + h.len]]
    ensures t == Concat(Gaps([h], t)) + Bodies([h], t)[0] + Tail([h], t)
  {
    assert [h][1..] == [];
    assert Gaps([], t[h.gap + h.len..]) == [] && Bodies([], t[h.gap + h.len..]) == [];
    ConcatCons(t[..h.gap], []);
    assert [t[..h.gap]] + [] == [t[..h.gap]] && t[..h.gap] + Concat([]) == t[..h.gap];
  }

  lemma FourParts(a: string, b: string, c: string, d: string)
    ensures a + (b + c + d) == (a + b) + c + d
  {
  }

  /** Cutting drops exactly the bodies of all spans but the last: all gaps, the last body and the tail are kept. */
  lemma {:induction false} CutKeeps(ss: seq<Span>, t: string)
    requires |ss| > 0 && Fits(ss, t)
    ensures |Bodies(ss, t)| == |ss|
    ensures Cut(ss, t) == Concat(Gaps(ss, t)) + Bodies(ss, t)[|ss| - 1] + Tail(ss, t)
    decreases |ss|
  {
    TakenApart(ss, t);
    if |ss| == 1 {
      assert ss == [ss[0]];
      OneCutKeeps(ss[0], t);
    } else {
      CutKeeps(ss[1..], t[ss[0].gap + ss[0].len..]);
      CutKeepsMore(ss, t, t[ss[0].gap + ss[0].len..]);
    }
  }

  lemma CutKeepsMore(ss: seq<Span>, t: string, u: string)
    requires |ss| > 1 && Fits(ss, t) && u == t[ss[0].gap + ss[0].len..]
    requires |Bodies(ss, t)| == |ss| && |Bodies(ss[1..], u)| == |ss| - 1
    requires Cut(ss[1..], u) == Concat(Gaps(ss[1..], u)) + Bodies(ss[1..], u)[|ss| - 2] + Tail(ss[1..], u)
    ensures Cut(ss, t) == Concat(Gaps(ss, t)) + Bodies(ss, t)[|ss| - 1] + Tail(ss, t)
  {
    CutStep(ss, t);
    ConcatCons(t[..ss[0].gap], Gaps(ss[1..], u));
    FourParts(t[..ss[0].gap], Concat(Gaps(ss[1..], u)), Bodies(ss[1..], u)[|ss| - 2], Tail(ss[1..], u));
  }

  type Cutter = (seq<Span>, string) -> string

  /** Cutting more than one span: the gap before the first, then cutting what is behind it. */
  ghost predicate CutLawAt(cut: Cutter, ss: seq<Span>, t: string) {
    && (|ss| <= 1 ==> cut(ss, t) == t)
    && (|ss| > 1 && Fits(ss, t) ==>
          var h := ss[0];
          && h.gap + h.len <= |t|
          && Fits(ss[1..], t[h.gap + h.len..])
          && cut(ss, t) == t[..h.gap] + cut(ss[1..], t[h.gap + h.len..]))
  }

  ghost predicate CutLaw(cut: Cutter) {
    forall ss, t :: CutLawAt(cut, ss, t)
  }

  lemma CutIsLawful()
    ensures CutLaw(Cut)
  {
    forall ss, t
      ensures CutLawAt(Cut, ss, t)
    {
      if |ss| > 1 && Fits(ss, t) {
        CutStep(ss, t);
      }
    }
  }

  /** What is to come out: copied so far, then the cut of the text that is left. */
  ghost predicate Cutting(cut: Cutter, whole: string, out: string, t: string, left: seq<Span>) {
    Fits(left, t) && whole == out + cut(left, t)
  }

  lemma CutTurn(cut: Cutter, whole: string, out: string, t: string, left: seq<Span>)
    requires CutLaw(cut) && Cutting(cut, whole, out, t, left) && |left| > 1
    ensures var h := left[0];
      h.gap + h.len <= |t| && Cutting(cut, whole, out + t[..h.gap], t[h.gap + h.len..], left[1..])
  {
    var h := left[0];
    assert CutLawAt(cut, left, t);
    Reassociate(out, t[..h.gap], cut(left[1..], t[h.gap + h.len..]));
  }

  lemma Reassociate(a: string, b: string, c: string)
    ensures a + (b + c) == a + b + c
  {
  }

  /** The text behind the cursor. */
  predicate Behind(src: string, cursor: nat, t: string) {
    cursor <= |src| && src[cursor..] == t
  }

  lemma BehindTurn(src: string, cursor: nat, t: string, gap: nat, n: nat)
    requires Behind(src, cursor, t) && gap <= n <= |t|
    ensures cursor + n <= |src| && src[cursor..cursor + gap] == t[..gap] && Behind(src, cursor + n, t[n..])
  {
  }

  /** Cutting given the spans' positions: copy the gaps, then everything from the last span on. */
  method CutRegions(src: string, ghost ss: seq<Span>, rs: seq<Region>) returns (out: string)
    requires Fits(ss, src) && rs == Regions(ss, 0)
    ensures out == Cut(ss, src)
  {
    RegionCount(ss, 0);
    if |rs| <= 1 {
      return src;
    }
    CutIsLawful();
    assert "" + Cut(ss, src) == Cut(ss, src);
    out := CopyGaps(src, Cut, Cut(ss, src), ss, rs);
  }

  /** The loop of it. */
  method CopyGaps(src: string, ghost cut: Cutter, ghost whole: string, ghost ss: seq<Span>, rs: seq<Region>)
    returns (out: string)
    requires CutLaw(cut) && Cutting(cut, whole, "", src, ss) && |rs| == |ss| > 1 && rs == Regions(ss, 0)
    ensures out == whole
  {
    var cursor: nat;
    out, cursor := "", 0;
    ghost var left, t := ss, src;
    assert rs[0..] == rs && src[0..] == src;
    for i := 0 to |rs| - 1
      invariant |left| == |rs| - i && rs[i..] == Regions(left, cursor)
      invariant Cutting(cut, whole, out, t, left) && Behind(src, cursor, t)
    {
      out, cursor, t := CopyGap(src, cut, whole, out, cursor, t, left, rs[i..]);
      assert rs[i..][1..] == rs[i + 1..];
      left := left[1..];
    }
    assert CutLawAt(cut, left, t);
    out := out + src[cursor..];
  }

  /** The body of that loop: copy up to the next span, move behind it. */
  method CopyGap(src: string, ghost cut: Cutter, ghost whole: string, out: string, cursor: nat, ghost t: string,
                 ghost left: seq<Span>, rs: seq<Region>)
    returns (out': string, cursor': nat, ghost t': string)
    requires CutLaw(cut) && Cutting(cut, whole, out, t, left) && Behind(src, cursor, t)
    requires |left| > 1 && |rs| > 0 && rs == Regions(left, cursor)
    ensures Cutting(cut, whole, out', t', left[1..]) && Behind(src, cursor', t')
    ensures rs[1..] == Regions(left[1..], cursor')
  {
    ghost var h := left[0];
    CutTurn(cut, whole, out, t, left);
    BehindTurn(src, cursor, t, h.gap, h.gap + h.len);
    RegionHead(left, cursor);
    out', cursor' := out + src[cursor..rs[0].start], rs[0].end;
    t' := t[h.gap + h.len..];
  }

  // -------------------------------------------- when nothing can be glued together

  /** Text behind a closed gap makes nothing open. */
  ghost predicate GlueLaw(opens: Opener, closed: string -> bool, gap: string, rest: string) {
    closed(gap) && NoneOpens(opens, gap, |gap|) && NoneOpens(opens, rest, |rest|) ==>
      NoneOpens(opens, gap + rest, |gap + rest|)
  }

  /** Every gap but the last one is closed; the gap before the last span may be anything. */
  predicate GapsClosed(closed: string -> bool, ss: seq<Span>, t: string) {
    |ss| >= 2 && ss[0].gap + ss[0].len <= |t| ==>
      closed(t[..ss[0].gap]) && GapsClosed(closed, ss[1..], t[ss[0].gap + ss[0].len..])
  }

  lemma GapOpensNothing(look: Looker, opens: Opener, t: string, n: nat)
    requires Scanner(look, opens) && n < |t| && NoneOpens(opens, t, n)
    ensures NoneOpens(opens, t[..n], n)
  {
    assert t[..n] + t[n..] == t;
    forall i: nat | i < n
      ensures !opens(t[..n], i)
    {
      assert AppendLaw(opens, t[..n], t[n..], i);
    }
  }

  lemma {:induction false} ClosedGapsOpenNothing(look: Looker, opens: Opener, closed: string -> bool, t: string)
    requires Scanner(look, opens) && (forall gap, rest :: GlueLaw(opens, closed, gap, rest))
    requires |Scan(look, t)| > 0 && GapsClosed(closed, Scan(look, t), t)
    ensures NoneOpens(opens, Before(Scan(look, t), t), |Before(Scan(look, t), t)|)
    decreases |t|
  {
    var ss := Scan(look, t);
    var h := ss[0];
    FirstSpan(look, opens, t);
    GapOpensNothing(look, opens, t, h.gap);
    if |ss| >= 2 {
      var after := t[h.gap + h.len..];
      assert ss[1..] == Scan(look, after);
      ClosedGapsOpenNothing(look, opens, closed, after);
      assert GlueLaw(opens, closed, t[..h.gap], Before(ss[1..], after));
    }
  }
}
