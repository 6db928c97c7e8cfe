/**
 The struct fields of a generated link helper: pascal, the numbering of repeated
 names, and exactly when the fields are usable, that is, identifiers and distinct.
 */
module LinkFields {
  import opened Text
  import opened Links

  // -------------------------------------------------------------- identifiers

  predicate IsUpper(c: char) { 'A' <= c <= 'Z' }

  predicate IsLower(c: char) { 'a' <= c <= 'z' }

  predicate IsLetter(c: char) { IsUpper(c) || IsLower(c) }

  predicate IsWordChar(c: char) { IsLetter(c) || IsDigit(c) }

  function ToUpper(c: char): char
    requires IsLower(c)
  {
    ((c as int) - 32) as char
  }

  /** A Go identifier of ASCII characters. */
  predicate IsIdent(s: string) {
    && |s| > 0
    && !IsDigit(s[0])
    && forall i :: 0 <= i < |s| ==> IsWordChar(s[i]) || s[i] == '_'
  }

  /** What position i of a name contributes: a letter that starts a word is raised, a separator is dropped. */
  function TitleChar(s: string, i: nat): string
    requires i < |s|
  {
    if IsLower(s[i]) && (i == 0 || !IsLetter(s[i - 1])) then [ToUpper(s[i])]
    else if IsWordChar(s[i]) then [s[i]]
    else ""
  }

  /** The words of a name, each with its first letter raised, run together. */
  function Titled(s: string): string {
    if |s| == 0 then "" else Titled(s[..|s| - 1]) + TitleChar(s, |s| - 1)
  }

  /** A digit in front is guarded. */
  function PascalCase(s: string): string {
    var t := Titled(s);
    if |t| > 0 && IsDigit(t[0]) then "_" + t else t
  }

  predicate HasWordChar(s: string) {
    exists i :: 0 <= i < |s| && IsWordChar(s[i])
  }

  predicate AllWordChars(s: string) {
    forall i :: 0 <= i < |s| ==> IsWordChar(s[i])
  }

  lemma HasWordCharSnoc(s: string, c: char)
    ensures HasWordChar(s + [c]) <==> HasWordChar(s) || IsWordChar(c)
  {
    var t := s + [c];
    assert t[|s|] == c && forall i :: 0 <= i < |s| ==> t[i] == s[i];
  }

  lemma TitleCharKept(s: string, i: nat)
    requires i < |s|
    ensures IsWordChar(s[i]) <==> |TitleChar(s, i)| == 1
    ensures IsWordChar(s[i]) ==> IsWordChar(TitleChar(s, i)[0]) && ToLower(TitleChar(s, i)[0]) == ToLower(s[i])
    ensures !IsWordChar(s[i]) ==> TitleChar(s, i) == ""
  {
  }

  lemma {:induction false} TitledWords(s: string)
    ensures Titled(s) == "" <==> !HasWordChar(s)
    ensures AllWordChars(Titled(s))
  {
    if |s| > 0 {
      var n := |s| - 1;
      TitledWords(s[..n]);
      assert s == s[..n] + [s[n]];
      HasWordCharSnoc(s[..n], s[n]);
      TitledGrows(s, n, Titled(s[..n]));
    }
  }

  lemma TitledGrows(s: string, n: nat, t: string)
    requires n < |s| && AllWordChars(t)
    ensures AllWordChars(t + TitleChar(s, n))
    ensures t + TitleChar(s, n) == "" <==> t == "" && !IsWordChar(s[n])
  {
    TitleCharKept(s, n);
  }

  /** The result is empty if and only if the name has no ASCII letter or digit, and else an identifier. */
  lemma PascalIdent(s: string)
    ensures PascalCase(s) == "" <==> !HasWordChar(s)
    ensures PascalCase(s) != "" ==> IsIdent(PascalCase(s))
  {
    TitledWords(s);
  }

  function Fold(s: string): string {
    if |s| == 0 then "" else Fold(s[..|s| - 1]) + [ToLower(s[|s| - 1])]
  }

  /** The letters and digits of a name, in order. */
  function WordChars(s: string): string {
    if |s| == 0 then ""
    else WordChars(s[..|s| - 1]) + if IsWordChar(s[|s| - 1]) then [s[|s| - 1]] else ""
  }

  lemma FoldSnoc(s: string, c: char)
    ensures Fold(s + [c]) == Fold(s) + [ToLower(c)]
  {
    assert (s + [c])[..|s|] == s;
  }

  /** Letters and digits are kept, in order, up to case. */
  lemma {:induction false} TitledKeeps(s: string)
    ensures Fold(Titled(s)) == Fold(WordChars(s))
  {
    if |s| > 0 {
      var n := |s| - 1;
      TitledKeeps(s[..n]);
      TitleCharKept(s, n);
      if IsWordChar(s[n]) {
        var c := TitleChar(s, n)[0];
        assert Titled(s) == Titled(s[..n]) + [c];
        FoldSnoc(Titled(s[..n]), c);
        FoldSnoc(WordChars(s[..n]), s[n]);
      } else {
        assert Titled(s) == Titled(s[..n]) && WordChars(s) == WordChars(s[..n]);
      }
    }
  }

  /** One character: kept, raised, guarded or dropped. */
  method PascalChar(ghost s: string, ghost i: nat, b: string, upper: bool, c: char) returns (b': string, upper': bool)
    requires i < |s| && s[i] == c && b == PascalCase(s[..i]) && upper == (i == 0 || !IsLetter(s[i - 1]))
    ensures b' == PascalCase(s[..i + 1]) && upper' == !IsLetter(c)
  {
    PascalNext(s, i);
    if IsUpper(c) {
      return b + [c], false;
    } else if IsLower(c) {
      return b + [if upper then ToUpper(c) else c], false;
    } else if IsDigit(c) {
      return (if b == "" then "_" else b) + [c], true;
    }
    return b, true;
  }

  /** The loop of pascal. */
  method PascalLoop(s: string) returns (b: string)
    ensures b == PascalCase(s)
  {
    b := "";
    var upper := true;
    for i := 0 to |s|
      invariant b == PascalCase(s[..i])
      invariant upper == (i == 0 || !IsLetter(s[i - 1]))
    {
      b, upper := PascalChar(s, i, b, upper, s[i]);
    }
    assert s[..|s|] == s;
  }

  /** pascal: an identifier or nothing, made of the name's letters and digits in order. */
  method Pascal(s: string) returns (b: string)
    ensures b == PascalCase(s)
    ensures b == "" <==> !HasWordChar(s)
    ensures b != "" ==> IsIdent(b)
    ensures Fold(TrimPrefix(b, "_")) == Fold(WordChars(s))
  {
    b := PascalLoop(s);
    PascalIdent(s);
    PascalKeeps(s);
  }

  lemma PascalNext(s: string, i: nat)
    requires i < |s|
    ensures var b, t := PascalCase(s[..i]), TitleChar(s, i);
      PascalCase(s[..i + 1]) == (if b == "" && t != "" && IsDigit(t[0]) then "_" else b) + t
  {
    assert s[..i + 1][..i] == s[..i];
    assert Titled(s[..i + 1]) == Titled(s[..i]) + TitleChar(s, i);
    TitledWords(s[..i]);
  }

  lemma PascalKeeps(s: string)
    ensures Fold(TrimPrefix(PascalCase(s), "_")) == Fold(WordChars(s))
  {
    TitledKeeps(s);
    TitledWords(s);
    var t := Titled(s);
    if |t| > 0 && !IsDigit(t[0]) {
      assert t[..1][0] != '_';
    } else if |t| > 0 {
      assert ("_" + t)[..1] == "_" && ("_" + t)[1..] == t;
    }
  }

  // ---------------------------------------------------------- a route's identifier

  function SegmentText(s: Segment): string {
    PascalCase(if s.Static? then s.value else s.name)
  }

  function SegmentTexts(segs: seq<Segment>): string {
    if |segs| == 0 then "" else SegmentTexts(segs[..|segs| - 1]) + SegmentText(segs[|segs| - 1])
  }

  lemma IdentConcat(a: string, b: string)
    requires (a == "" || IsIdent(a)) && (b == "" || IsIdent(b))
    ensures a + b == "" || IsIdent(a + b)
  {
    var ab := a + b;
    assert forall i :: 0 <= i < |a| ==> ab[i] == a[i];
    assert forall i :: 0 <= i < |b| ==> ab[|a| + i] == b[i];
  }

  /** The pieces run together, or Index. */
  function IdentOf(segs: seq<Segment>): string {
    if SegmentTexts(segs) == "" then "Index" else SegmentTexts(segs)
  }

  /** routeIdent: an identifier whatever the segments are. */
  method RouteIdent(segs: seq<Segment>) returns (b: string)
    ensures b == IdentOf(segs)
    ensures IsIdent(b)
  {
    b := "";
    for i := 0 to |segs|
      invariant b == SegmentTexts(segs[..i]) && (b == "" || IsIdent(b))
    {
      assert segs[..i + 1][..i] == segs[..i];
      var piece := Pascal(if segs[i].Static? then segs[i].value else segs[i].name);
      IdentConcat(b, piece);
      b := b + piece;
    }
    assert segs[..|segs|] == segs;
    if |b| == 0 {
      b := "Index";
    }
  }

  // --------------------------------------------------------------- parameters

  /** A parameter slot: the struct field and the URL parameter it stands for. */
  datatype LinkParam = LinkParam(field: string, name: string)

  /** The counter table after one more occurrence. */
  function Bump(used: map<string, nat>, key: string): map<string, nat> {
    used[key := if key in used then used[key] + 1 else 1]
  }

  /** The field for the next parameter, and the counter table after it. */
  function NextField(used: map<string, nat>, name: string): (string, map<string, nat>) {
    var field := PascalCase(name);
    (if field in used then field + Itoa(used[field] + 1) else field, Bump(used, field))
  }

  function CollectFrom(segs: seq<Segment>, used: map<string, nat>): seq<LinkParam>
    decreases |segs|
  {
    if |segs| == 0 then []
    else if segs[0].Static? then CollectFrom(segs[1..], used)
    else
      var (field, used') := NextField(used, segs[0].name);
      [LinkParam(field, segs[0].name)] + CollectFrom(segs[1..], used')
  }

  function Collected(segs: seq<Segment>): seq<LinkParam> {
    CollectFrom(segs, map[])
  }

  // ------------------------------------------------- fields as numbered stems

  /** The names of a route's dynamic segments, each as pascal makes it. */
  function Stems(segs: seq<Segment>): seq<string>
    decreases |segs|
  {
    if |segs| == 0 then []
    else (if segs[0].Static? then [] else [PascalCase(segs[0].name)]) + Stems(segs[1..])
  }

  function Count(st: seq<string>, a: string): nat {
    if |st| == 0 then 0 else Count(st[..|st| - 1], a) + if st[|st| - 1] == a then 1 else 0
  }

  /** The k-th field made from a stem. */
  function Numbered(a: string, k: nat): string {
    if k <= 1 then a else a + Itoa(k)
  }

  /** The field at position i: its stem, with its number among equal ones. */
  function FieldAt(st: seq<string>, i: nat): string
    requires i < |st|
  {
    Numbered(st[i], Count(st[..i + 1], st[i]))
  }

  ghost predicate Tallies(used: map<string, nat>, st: seq<string>) {
    forall a :: (a in used <==> Count(st, a) > 0) && (a in used ==> used[a] == Count(st, a))
  }

  lemma CountSnoc(st: seq<string>, x: string, a: string)
    ensures Count(st + [x], a) == Count(st, a) + if x == a then 1 else 0
  {
    assert (st + [x])[..|st|] == st;
  }

  lemma TallyBump(used: map<string, nat>, st: seq<string>, x: string)
    requires Tallies(used, st)
    ensures Tallies(Bump(used, x), st + [x]) && Bump(used, x)[x] == Count(st + [x], x)
  {
    forall a
      ensures Count(st + [x], a) == Count(st, a) + if x == a then 1 else 0
    {
      CountSnoc(st, x, a);
    }
  }

  lemma TallyNext(used: map<string, nat>, st: seq<string>, name: string)
    requires Tallies(used, st)
    ensures var x := PascalCase(name); var (field, used') := NextField(used, name);
      Tallies(used', st + [x]) && field == Numbered(x, Count(st + [x], x))
  {
    TallyBump(used, st, PascalCase(name));
  }

  /** The slots are those of these stems from position `from` on. */
  ghost predicate Slots(ps: seq<LinkParam>, st: seq<string>, from: nat) {
    from + |ps| == |st| && forall i :: 0 <= i < |ps| ==> ps[i].field == FieldAt(st, from + i)
  }

  /** Collecting from some point on numbers the stems behind those already tallied. */
  lemma {:induction false} CollectedFields(segs: seq<Segment>, used: map<string, nat>, prior: seq<string>,
                                           st: seq<string>)
    requires Tallies(used, prior) && st == prior + Stems(segs)
    ensures Slots(CollectFrom(segs, used), st, |prior|)
    decreases |segs|
  {
    if |segs| > 0 {
      StemsCons(segs);
      if segs[0].Static? {
        CollectedFields(segs[1..], used, prior, st);
      } else {
        var (field, used') := NextField(used, segs[0].name);
        CollectedMore(segs, used, prior, st);
        CollectedFields(segs[1..], used', prior + [PascalCase(segs[0].name)], st);
        StemFront(LinkParam(field, segs[0].name), CollectFrom(segs[1..], used'), prior, PascalCase(segs[0].name),
                  Stems(segs[1..]), st);
      }
    }
  }

  lemma CollectedMore(segs: seq<Segment>, used: map<string, nat>, prior: seq<string>, st: seq<string>)
    requires |segs| > 0 && !segs[0].Static? && Tallies(used, prior) && st == prior + Stems(segs)
    ensures var x := PascalCase(segs[0].name); var (field, used') := NextField(used, segs[0].name);
      && Tallies(used', prior + [x])
      && field == Numbered(x, Count(prior + [x], x))
      && st == (prior + [x]) + Stems(segs[1..])
  {
    StemsMove(segs, prior);
    TallyNext(used, prior, segs[0].name);
  }

  lemma StemsMove(segs: seq<Segment>, prior: seq<string>)
    requires |segs| > 0 && !segs[0].Static?
    ensures prior + Stems(segs) == (prior + [PascalCase(segs[0].name)]) + Stems(segs[1..])
  {
    StemsCons(segs);
  }

  lemma StemFront(p: LinkParam, ps: seq<LinkParam>, prior: seq<string>, x: string, rest: seq<string>, st: seq<string>)
    requires st == (prior + [x]) + rest && p.field == Numbered(x, Count(prior + [x], x)) && Slots(ps, st, |prior| + 1)
    ensures Slots([p] + ps, st, |prior|)
  {
    StemAt(prior, x, rest, st);
    SlotsCons(p, ps, st, |prior|);
  }

  lemma StemsCons(segs: seq<Segment>)
    requires |segs| > 0
    ensures Stems(segs) == if segs[0].Static? then Stems(segs[1..]) else [PascalCase(segs[0].name)] + Stems(segs[1..])
  {
    assert [] + Stems(segs[1..]) == Stems(segs[1..]);
  }

  lemma StemAt(prior: seq<string>, x: string, rest: seq<string>, st: seq<string>)
    requires st == (prior + [x]) + rest
    ensures FieldAt(st, |prior|) == Numbered(x, Count(prior + [x], x))
  {
    assert st[..|prior| + 1] == prior + [x];
  }

  lemma SlotsCons(p: LinkParam, ps: seq<LinkParam>, st: seq<string>, from: nat)
    requires from < |st| && p.field == FieldAt(st, from) && Slots(ps, st, from + 1)
    ensures Slots([p] + ps, st, from)
  {
    var all := [p] + ps;
    forall i | 0 <= i < |all|
      ensures all[i].field == FieldAt(st, from + i)
    {
      if i > 0 {
        assert all[i] == ps[i - 1] && ps[i - 1].field == FieldAt(st, from + 1 + (i - 1));
      }
    }
  }

  lemma FieldsOf(segs: seq<Segment>)
    ensures Slots(Collected(segs), Stems(segs), 0)
  {
    CollectedFields(segs, map[], [], Stems(segs));
  }

  // ------------------------------------------------------- when they are distinct

  ghost predicate DistinctFields(st: seq<string>) {
    forall i, j :: 0 <= i < j < |st| ==> FieldAt(st, i) != FieldAt(st, j)
  }

  /** The k-th field of one stem reads like the l-th of another. */
  predicate Clashes(st: seq<string>, a: string, k: nat, b: string, l: nat) {
    a != b && 2 <= k <= Count(st, a) && 1 <= l <= Count(st, b) && a + Itoa(k) == Numbered(b, l)
  }

  /** A numbered stem reads like another stem, numbered or not. */
  ghost predicate Clash(st: seq<string>) {
    exists a, k, b, l :: Clashes(st, a, k, b, l)
  }

  lemma {:induction false} CountBounds(st: seq<string>, i: nat)
    requires i < |st|
    ensures 1 <= Count(st[..i + 1], st[i]) <= Count(st, st[i])
  {
    var n := |st| - 1;
    if i < n {
      CountBounds(st[..n], i);
      assert st[..n][..i + 1] == st[..i + 1];
    } else {
      assert st[..i + 1] == st;
    }
  }

  /** A later occurrence of a stem has a larger number. */
  lemma {:induction false} CountGrows(st: seq<string>, i: nat, j: nat)
    requires i < j < |st| && st[i] == st[j]
    ensures Count(st[..i + 1], st[i]) < Count(st[..j + 1], st[j])
  {
    CountBounds(st[..j], i);
    assert st[..j][..i + 1] == st[..i + 1];
    assert st[..j + 1][..j] == st[..j];
  }

  /** Every number up to the count is given to some occurrence. */
  lemma {:induction false} Occurrence(st: seq<string>, a: string, k: nat) returns (i: nat)
    requires 1 <= k <= Count(st, a)
    ensures i < |st| && st[i] == a && Count(st[..i + 1], a) == k
  {
    var n := |st| - 1;
    if k <= Count(st[..n], a) {
      i := Occurrence(st[..n], a, k);
      assert st[..n][..i + 1] == st[..i + 1];
    } else {
      i := n;
      assert st[..n + 1] == st;
    }
  }

  lemma NumberedDiffer(a: string, k: nat, l: nat)
    requires 1 <= k < l
    ensures Numbered(a, k) != Numbered(a, l)
  {
    if Numbered(a, k) == Numbered(a, l) {
      assert Itoa(l) == Numbered(a, l)[|a|..];
      assert k >= 2 && Itoa(k) == Numbered(a, k)[|a|..];
      ItoaInjective(k, l);
    }
  }

  lemma SameFieldClashes(st: seq<string>, i: nat, j: nat)
    requires i < j < |st| && FieldAt(st, i) == FieldAt(st, j)
    ensures Clash(st)
  {
    var k, l := Count(st[..i + 1], st[i]), Count(st[..j + 1], st[j]);
    CountBounds(st, i);
    CountBounds(st, j);
    if st[i] == st[j] {
      CountGrows(st, i, j);
      NumberedDiffer(st[i], k, l);
    } else if k >= 2 {
      assert Clashes(st, st[i], k, st[j], l);
    } else {
      assert Clashes(st, st[j], l, st[i], k);
    }
  }

  lemma ClashIsShared(st: seq<string>)
    requires Clash(st)
    ensures !DistinctFields(st)
  {
    var a, k, b, l :| Clashes(st, a, k, b, l);
    var i := Occurrence(st, a, k);
    var j := Occurrence(st, b, l);
    assert FieldAt(st, i) == FieldAt(st, j);
  }

  /** The fields of a route are distinct if and only if no numbered name reads like another one. */
  lemma DistinctExactly(st: seq<string>)
    ensures DistinctFields(st) <==> !Clash(st)
  {
    if Clash(st) {
      ClashIsShared(st);
    }
    if i, j :| 0 <= i < j < |st| && FieldAt(st, i) == FieldAt(st, j) {
      SameFieldClashes(st, i, j);
    }
  }

  lemma PascalOfId()
    ensures PascalCase("id") == "Id" && PascalCase("Id") == "Id" && PascalCase("id2") == "Id2"
  {
    assert "id"[..1] == "i" && "i"[..0] == "" && "Id"[..1] == "I" && "I"[..0] == "";
    assert "id2"[..2] == "id";
    assert Titled("i") == "I" && Titled("I") == "I" && Titled("id") == "Id" && Titled("Id") == "Id";
  }

  /** A route the scanner accepts, for which the generated struct has the same field twice. */
  lemma FieldsCanCollide()
    ensures var segs := [Param("id", ""), Param("Id", ""), Param("id2", "")];
      && GoodRoute(segs) && IdentNames(segs) && WordNames(segs)
      && Clashes(Stems(segs), "Id", 2, "Id2", 1)
      && !FitNames(segs) && !Usable(Collected(segs))
  {
    var segs := [Param("id", ""), Param("Id", ""), Param("id2", "")];
    PascalOfId();
    StemsOfThree("id", "Id", "id2");
    IdClashes();
    WordNamesOfThree("id", "Id", "id2");
    GoodIdRoute();
    UsableExactly(segs);
  }

  lemma GoodIdRoute()
    ensures var segs := [Param("id", ""), Param("Id", ""), Param("id2", "")]; GoodRoute(segs) && IdentNames(segs)
  {
    GoodParam("id");
    GoodParam("Id");
    GoodParam("id2");
    assert "id"[0] == 'i' && "Id"[0] == 'I' && |"id2"| == 3;
    GoodRouteOfThree(Param("id", ""), Param("Id", ""), Param("id2", ""));
  }

  /** An identifier has none of the characters that structure a pattern. */
  lemma GoodParam(name: string)
    requires IsIdent(name)
    ensures GoodSegment(Param(name, ""))
  {
  }

  lemma GoodRouteOfThree(a: Segment, b: Segment, c: Segment)
    requires a.Param? && b.Param? && c.Param? && GoodSegment(a) && GoodSegment(b) && GoodSegment(c)
    requires a.name != b.name && a.name != c.name && b.name != c.name
    requires IsIdent(a.name) && IsIdent(b.name) && IsIdent(c.name)
    ensures GoodRoute([a, b, c]) && IdentNames([a, b, c])
  {
  }

  lemma WordNamesOfThree(a: string, b: string, c: string)
    requires |a| > 0 && |b| > 0 && |c| > 0 && IsWordChar(a[0]) && IsWordChar(b[0]) && IsWordChar(c[0])
    ensures WordNames([Param(a, ""), Param(b, ""), Param(c, "")])
  {
  }

  lemma IdClashes()
    ensures Clashes(["Id", "Id", "Id2"], "Id", 2, "Id2", 1)
  {
    CountOfThree("Id", "Id", "Id2", "Id");
    CountOfThree("Id", "Id", "Id2", "Id2");
    assert "Id" + Itoa(2) == "Id2";
  }

  lemma CountOfThree(a: string, b: string, c: string, x: string)
    ensures Count([a, b, c], x) == (if a == x then 1 else 0) + (if b == x then 1 else 0) + (if c == x then 1 else 0)
  {
    CountSnoc([], a, x);
    CountSnoc([a], b, x);
    CountSnoc([a, b], c, x);
    assert [] + [a] == [a] && [a] + [b] == [a, b] && [a, b] + [c] == [a, b, c];
  }

  lemma StemsOfThree(a: string, b: string, c: string)
    ensures Stems([Param(a, ""), Param(b, ""), Param(c, "")]) == [PascalCase(a), PascalCase(b), PascalCase(c)]
  {
    var segs := [Param(a, ""), Param(b, ""), Param(c, "")];
    assert segs[1..] == [Param(b, ""), Param(c, "")] && segs[1..][1..] == [Param(c, "")];
    assert [Param(c, "")][1..] == [];
    StemsCons([Param(c, "")]);
    StemsCons([Param(b, ""), Param(c, "")]);
    StemsCons(segs);
  }

  // --------------------------------------------------------- when they are usable

  /** The struct declares every field once, and every field is an identifier. */
  ghost predicate Usable(ps: seq<LinkParam>) {
    && (forall i :: 0 <= i < |ps| ==> IsIdent(ps[i].field))
    && (forall i, j :: 0 <= i < j < |ps| ==> ps[i].field != ps[j].field)
  }

  /** Every parameter name is an identifier, as the scanner demands. */
  predicate IdentNames(segs: seq<Segment>) {
    forall i :: 0 <= i < |segs| && !segs[i].Static? ==> IsIdent(segs[i].name)
  }

  /** Every parameter name has an ASCII letter or digit. */
  predicate WordNames(segs: seq<Segment>) {
    forall i :: 0 <= i < |segs| && !segs[i].Static? ==> HasWordChar(segs[i].name)
  }

  predicate NoneEmpty(st: seq<string>) {
    forall i :: 0 <= i < |st| ==> st[i] != ""
  }

  /** What the author of a route has to see to: names with a letter or digit, and no clash of numbered ones. */
  ghost predicate FitNames(segs: seq<Segment>) {
    WordNames(segs) && !Clash(Stems(segs))
  }

  lemma NumberedIdent(a: string, k: nat)
    requires a == "" || IsIdent(a)
    ensures IsIdent(Numbered(a, k)) <==> a != ""
  {
    var s := Numbered(a, k);
    if k >= 2 {
      assert forall i :: |a| <= i < |s| ==> s[i] == Itoa(k)[i - |a|];
    }
  }

  lemma WordNamesCons(s: Segment, rest: seq<Segment>)
    ensures WordNames([s] + rest) <==> (s.Static? || HasWordChar(s.name)) && WordNames(rest)
  {
    var segs := [s] + rest;
    assert segs[0] == s && forall i :: 0 <= i < |rest| ==> segs[i + 1] == rest[i];
  }

  lemma NoneEmptyCons(x: string, rest: seq<string>)
    ensures NoneEmpty([x] + rest) <==> x != "" && NoneEmpty(rest)
  {
    var st := [x] + rest;
    assert st[0] == x && forall i :: 0 <= i < |rest| ==> st[i + 1] == rest[i];
  }

  lemma {:induction false} StemsNonEmpty(segs: seq<Segment>)
    ensures NoneEmpty(Stems(segs)) <==> WordNames(segs)
    decreases |segs|
  {
    if |segs| > 0 {
      StemsCons(segs);
      StemsNonEmpty(segs[1..]);
      WordNamesCons(segs[0], segs[1..]);
      assert segs == [segs[0]] + segs[1..];
      if !segs[0].Static? {
        PascalIdent(segs[0].name);
        NoneEmptyCons(PascalCase(segs[0].name), Stems(segs[1..]));
      }
    }
  }

  lemma {:induction false} StemIsIdent(segs: seq<Segment>, i: nat)
    requires i < |Stems(segs)|
    ensures Stems(segs)[i] == "" || IsIdent(Stems(segs)[i])
    decreases |segs|
  {
    StemsCons(segs);
    if segs[0].Static? {
      StemIsIdent(segs[1..], i);
    } else if i == 0 {
      PascalIdent(segs[0].name);
    } else {
      StemIsIdent(segs[1..], i - 1);
    }
  }

  lemma FieldIsIdent(segs: seq<Segment>, i: nat)
    requires i < |Stems(segs)|
    ensures IsIdent(FieldAt(Stems(segs), i)) <==> Stems(segs)[i] != ""
  {
    StemIsIdent(segs, i);
    NumberedIdent(Stems(segs)[i], Count(Stems(segs)[..i + 1], Stems(segs)[i]));
  }

  lemma UsableFields(ps: seq<LinkParam>, st: seq<string>)
    requires Slots(ps, st, 0)
    ensures Usable(ps) <==> (forall i :: 0 <= i < |st| ==> IsIdent(FieldAt(st, i))) && DistinctFields(st)
  {
    forall i | 0 <= i < |ps|
      ensures ps[i].field == FieldAt(st, i)
    {
      assert ps[i].field == FieldAt(st, 0 + i);
    }
  }

  /** The fields of a route's struct are usable if and only if its names fit. */
  lemma UsableExactly(segs: seq<Segment>)
    ensures Usable(Collected(segs)) <==> FitNames(segs)
  {
    var st := Stems(segs);
    FieldsOf(segs);
    UsableFields(Collected(segs), st);
    DistinctExactly(st);
    StemsNonEmpty(segs);
    forall i | 0 <= i < |st|
      ensures IsIdent(FieldAt(st, i)) <==> st[i] != ""
    {
      FieldIsIdent(segs, i);
    }
  }

  /** A parameter name the scanner accepts and pascal makes nothing of. */
  lemma UnderscoreHasNoField()
    ensures var segs := [Param("_", "")];
      GoodRoute(segs) && IdentNames(segs) && !FitNames(segs) && !Usable(Collected(segs))
  {
    UsableExactly([Param("_", "")]);
    assert !HasWordChar("_");
    assert [Param("_", "")][0].name == "_";
  }

  /** One turn of the loop: the slot of a dynamic segment and the counters after it. */
  method CollectNext(name: string, used: map<string, nat>) returns (p: LinkParam, used': map<string, nat>)
    ensures (p.field, used') == NextField(used, name) && p.name == name
  {
    var field := Pascal(name);
    if field in used {
      var n := used[field] + 1;
      used' := used[field := n];
      p := LinkParam(field + Itoa(n), name);
    } else {
      used' := used[field := 1];
      p := LinkParam(field, name);
    }
  }

  method CollectSlots(segs: seq<Segment>) returns (out: seq<LinkParam>)
    ensures out == Collected(segs)
  {
    out := [];
    var used: map<string, nat> := map[];
    for i := 0 to |segs|
      invariant Collected(segs) == out + CollectFrom(segs[i..], used)
    {
      assert segs[i..][1..] == segs[i + 1..];
      if !segs[i].Static? {
        var p;
        p, used := CollectNext(segs[i].name, used);
        out := out + [p];
      }
    }
    assert segs[|segs|..] == [];
  }

  /** collectParams: one slot per dynamic segment; usable fields if and only if the names fit. */
  method CollectParams(segs: seq<Segment>) returns (out: seq<LinkParam>)
    ensures out == Collected(segs)
    ensures Slots(out, Stems(segs), 0)
    ensures Usable(out) <==> FitNames(segs)
  {
    out := CollectSlots(segs);
    FieldsOf(segs);
    UsableExactly(segs);
  }
}
