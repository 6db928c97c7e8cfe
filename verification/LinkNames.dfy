/**
 The package-level names of the generated links file: one function and one struct type
 per linkable route, numbered when routes lower to the same identifier, and exactly
 when the whole file can be declared.
 */
module LinkNames {
  import opened Text
  import opened Links
  import opened LinkFields

  // ------------------------------------------------------------- collecting

  datatype ScannedRoute = ScannedRoute(pattern: string, segs: seq<Segment>, hasPage: bool, hasServer: bool)

  datatype Verb = GET | ANY

  datatype LinkRoute = LinkRoute(pattern: string, helper: string, verb: Verb, params: seq<LinkParam>)

  /** The routes with a page or a server file. */
  function Linkable(rs: seq<ScannedRoute>): seq<ScannedRoute> {
    if |rs| == 0 then []
    else
      var n := |rs| - 1;
      Linkable(rs[..n]) + (if rs[n].hasPage || rs[n].hasServer then [rs[n]] else [])
  }

  /** Linking keeps the order of the scan and drops routes with neither file. */
  lemma {:induction false} LinkableAppend(a: seq<ScannedRoute>, b: seq<ScannedRoute>)
    ensures Linkable(a + b) == Linkable(a) + Linkable(b)
    ensures |b| == 1 ==> Linkable(b) == if b[0].hasPage || b[0].hasServer then b else []
  {
    if |b| == 0 {
      assert a + b == a;
    } else {
      assert (a + b)[..|a + b| - 1] == a + b[..|b| - 1];
      LinkableAppend(a, b[..|b| - 1]);
    }
  }

  function Bases(rs: seq<ScannedRoute>): seq<string> {
    seq(|rs|, i requires 0 <= i < |rs| => IdentOf(rs[i].segs))
  }

  /** The name of the k-th route with an identifier. */
  function Helper(a: string, k: nat): string {
    if k <= 1 then a else a + "_" + Itoa(k)
  }

  /** The name of the function at position i. */
  function HelperAt(st: seq<string>, i: nat): string
    requires i < |st|
  {
    Helper(st[i], Count(st[..i + 1], st[i]))
  }

  /** What the emitter has for a route whose function has this name. */
  function LinkOf(r: ScannedRoute, helper: string): LinkRoute {
    LinkRoute(r.pattern, helper, if r.hasPage then GET else ANY, Collected(r.segs))
  }

  /** One link per linkable route, in order, under its numbered name. */
  function LinkRoutes(ls: seq<ScannedRoute>): seq<LinkRoute> {
    seq(|ls|, i requires 0 <= i < |ls| => LinkOf(ls[i], HelperAt(Bases(ls), i)))
  }

  lemma BasesSnoc(ls: seq<ScannedRoute>, r: ScannedRoute)
    ensures Bases(ls + [r]) == Bases(ls) + [IdentOf(r.segs)]
  {
  }

  lemma HelperStays(st: seq<string>, x: string, i: nat)
    requires i < |st|
    ensures HelperAt(st + [x], i) == HelperAt(st, i)
  {
    assert (st + [x])[..i + 1] == st[..i + 1];
  }

  lemma HelperLast(st: seq<string>, x: string)
    ensures HelperAt(st + [x], |st|) == Helper(x, Count(st + [x], x))
  {
    var all := st + [x];
    assert all[..|st| + 1] == all && all[|st|] == x;
  }

  lemma LinkRoutesSnoc(ls: seq<ScannedRoute>, r: ScannedRoute)
    ensures var x := IdentOf(r.segs);
      LinkRoutes(ls + [r]) == LinkRoutes(ls) + [LinkOf(r, Helper(x, Count(Bases(ls) + [x], x)))]
  {
    var x, st := IdentOf(r.segs), Bases(ls);
    BasesSnoc(ls, r);
    HelperLast(st, x);
    forall i | 0 <= i < |ls|
      ensures HelperAt(st + [x], i) == HelperAt(st, i)
    {
      HelperStays(st, x, i);
    }
    LinksSnoc(ls, r, st, st + [x]);
  }

  lemma LinksSnoc(ls: seq<ScannedRoute>, r: ScannedRoute, st: seq<string>, all: seq<string>)
    requires |st| == |ls| && |all| == |ls| + 1 && Bases(ls) == st && Bases(ls + [r]) == all
    requires forall i :: 0 <= i < |ls| ==> HelperAt(all, i) == HelperAt(st, i)
    ensures LinkRoutes(ls + [r]) == LinkRoutes(ls) + [LinkOf(r, HelperAt(all, |ls|))]
  {
    assert forall i :: 0 <= i < |ls| ==> (ls + [r])[i] == ls[i];
  }

  /** The name for the next route with this identifier, and the counters after it. */
  method NextHelper(base: string, used: map<string, nat>, ghost st: seq<string>)
    returns (helper: string, used': map<string, nat>)
    requires Tallies(used, st)
    ensures Tallies(used', st + [base]) && helper == Helper(base, Count(st + [base], base))
  {
    TallyBump(used, st, base);
    if base in used {
      var n := used[base] + 1;
      used' := used[base := n];
      helper := base + "_" + Itoa(n);
    } else {
      used' := used[base := 1];
      helper := base;
    }
  }

  /** One linkable route behind those already collected. */
  method NextLink(r: ScannedRoute, used: map<string, nat>, ghost before: seq<ScannedRoute>)
    returns (link: LinkRoute, used': map<string, nat>)
    requires Tallies(used, Bases(before))
    ensures Tallies(used', Bases(before + [r])) && LinkRoutes(before + [r]) == LinkRoutes(before) + [link]
  {
    var base := RouteIdent(r.segs);
    var helper;
    helper, used' := NextHelper(base, used, Bases(before));
    var params := CollectParams(r.segs);
    link := LinkRoute(r.pattern, helper, if r.hasPage then GET else ANY, params);
    BasesSnoc(before, r);
    LinkRoutesSnoc(before, r);
  }

  /** CollectLinkRoutes. */
  method CollectLinkRoutes(rs: seq<ScannedRoute>) returns (routes: seq<LinkRoute>)
    ensures routes == LinkRoutes(Linkable(rs)) && |routes| == |Linkable(rs)|
    ensures forall i :: 0 <= i < |routes| ==>
      var r := Linkable(rs)[i];
      routes[i].pattern == r.pattern && (routes[i].verb == GET <==> r.hasPage) && routes[i].params == Collected(r.segs)
  {
    routes := [];
    var used: map<string, nat> := map[];
    ghost var before: seq<ScannedRoute> := [];
    for i := 0 to |rs|
      invariant before == Linkable(rs[..i]) && routes == LinkRoutes(before) && Tallies(used, Bases(before))
    {
      assert rs[..i + 1][..i] == rs[..i];
      if !rs[i].hasPage && !rs[i].hasServer {
        continue;
      }
      var link;
      link, used := NextLink(rs[i], used, before);
      routes := routes + [link];
      before := before + [rs[i]];
    }
    assert rs[..|rs|] == rs;
  }

  // ---------------------------------------------------- when the names are distinct

  const PARAMS := "Params"

  /** The names the file declares: the functions, and for each the type of its argument. */
  function DeclaredNames(routes: seq<LinkRoute>): seq<string> {
    seq(|routes|, i requires 0 <= i < |routes| => routes[i].helper)
    + seq(|routes|, i requires 0 <= i < |routes| => routes[i].helper + PARAMS)
  }

  /** A route's own identifier b reads like the k-th name made from a, or like the type that goes with it. */
  predicate NameClashes(st: seq<string>, a: string, k: nat, b: string) {
    && 1 <= k <= Count(st, a)
    && b in st
    && ((k >= 2 && b == a + "_" + Itoa(k)) || b == Helper(a, k) + PARAMS)
  }

  ghost predicate NameClash(st: seq<string>) {
    exists a, k, b :: NameClashes(st, a, k, b)
  }

  /** No underscore in the ends: the last one splits both texts at the same place. */
  lemma LastUnderscore(a: string, d: string, b: string, e: string)
    requires a + "_" + d == b + "_" + e && '_' !in d && '_' !in e
    ensures a == b && d == e
  {
    var s := a + "_" + d;
    assert s[|a|] == '_' && s[|b|] == '_';
    assert forall i :: |a| < i < |s| ==> s[i] == d[i - |a| - 1];
    assert forall i :: |b| < i < |s| ==> s[i] == (b + "_" + e)[i] == e[i - |b| - 1];
    assert |a| == |b|;
    assert s[..|a|] == a && s[..|b|] == b && s[|a| + 1..] == d && s[|b| + 1..] == e;
  }

  lemma NoUnderscore(n: nat)
    ensures '_' !in Itoa(n)
  {
  }

  lemma SameNumbered(a: string, k: nat, b: string, l: nat)
    requires k >= 2 && l >= 2 && Helper(a, k) == Helper(b, l)
    ensures a == b && k == l
  {
    NoUnderscore(k);
    NoUnderscore(l);
    LastUnderscore(a, Itoa(k), b, Itoa(l));
    ItoaInjective(k, l);
  }

  lemma NumberedIsLonger(a: string, k: nat)
    requires k >= 2
    ensures |Helper(a, k)| > |a|
  {
  }

  lemma SharedHelper(st: seq<string>, i: nat, j: nat)
    requires i < j < |st| && HelperAt(st, i) == HelperAt(st, j)
    ensures NameClash(st)
  {
    var a, k, b, l := st[i], Count(st[..i + 1], st[i]), st[j], Count(st[..j + 1], st[j]);
    CountBounds(st, i);
    CountBounds(st, j);
    if a == b {
      CountGrows(st, i, j);
      NumberedIsLonger(a, l);
    }
    if k >= 2 && l >= 2 {
      SameNumbered(a, k, b, l);
    } else if k >= 2 {
      assert NameClashes(st, a, k, b);
    } else {
      assert NameClashes(st, b, l, a);
    }
  }

  lemma EndsInDigit(a: string, k: nat)
    requires k >= 2
    ensures IsDigit(Helper(a, k)[|Helper(a, k)| - 1])
  {
    var h := Helper(a, k);
    assert h[|h| - 1] == Itoa(k)[|Itoa(k)| - 1];
  }

  lemma EndsInLetter(s: string)
    ensures !IsDigit((s + PARAMS)[|s + PARAMS| - 1])
  {
    assert (s + PARAMS)[|s| + 5] == PARAMS[5];
  }

  /** A numbered name ends in a digit, a type's name in a letter. */
  lemma NotAType(a: string, k: nat, s: string)
    requires Helper(a, k) == s + PARAMS
    ensures k <= 1
  {
    if k >= 2 {
      EndsInDigit(a, k);
      EndsInLetter(s);
    }
  }

  lemma TypeIsHelper(st: seq<string>, i: nat, j: nat)
    requires i < |st| && j < |st| && HelperAt(st, j) == HelperAt(st, i) + PARAMS
    ensures NameClash(st)
  {
    CountBounds(st, i);
    NotAType(st[j], Count(st[..j + 1], st[j]), HelperAt(st, i));
    assert NameClashes(st, st[i], Count(st[..i + 1], st[i]), st[j]);
  }

  lemma SuffixCancels(a: string, b: string)
    requires a + PARAMS == b + PARAMS
    ensures a == b
  {
    assert a == (a + PARAMS)[..|a|] && b == (b + PARAMS)[..|b|];
  }

  /** The names of a file whose routes have these identifiers. */
  function NamesOf(st: seq<string>): seq<string> {
    seq(|st|, i requires 0 <= i < |st| => HelperAt(st, i))
    + seq(|st|, i requires 0 <= i < |st| => HelperAt(st, i) + PARAMS)
  }

  lemma RepeatedNameClashes(st: seq<string>, x: nat, y: nat)
    requires x < y < |NamesOf(st)| && NamesOf(st)[x] == NamesOf(st)[y]
    ensures NameClash(st)
  {
    var n := |st|;
    if y < n {
      SharedHelper(st, x, y);
    } else if x < n {
      TypeIsHelper(st, y - n, x);
    } else {
      SuffixCancels(HelperAt(st, x - n), HelperAt(st, y - n));
      SharedHelper(st, x - n, y - n);
    }
  }

  lemma {:induction false} MemberCounts(st: seq<string>, b: string)
    requires b in st
    ensures Count(st, b) >= 1
  {
    var i :| 0 <= i < |st| && st[i] == b;
    CountBounds(st, i);
  }

  lemma NameAt(st: seq<string>, i: nat)
    requires i < |st|
    ensures NamesOf(st)[i] == HelperAt(st, i) && NamesOf(st)[|st| + i] == HelperAt(st, i) + PARAMS
  {
  }

  lemma ClashRepeatsName(st: seq<string>, a: string, k: nat, b: string) returns (x: nat, y: nat)
    requires NameClashes(st, a, k, b)
    ensures x < |NamesOf(st)| && y < |NamesOf(st)| && x != y && NamesOf(st)[x] == NamesOf(st)[y]
  {
    MemberCounts(st, b);
    var i := Occurrence(st, a, k);
    y := Occurrence(st, b, 1);
    NameAt(st, i);
    NameAt(st, y);
    if b == Helper(a, k) + PARAMS {
      x := |st| + i;
    } else {
      NumberedIsLonger(a, k);
      x := i;
    }
  }

  /** Nothing is declared twice if and only if no route's identifier reads like a name made from another's. */
  lemma NamesDistinctExactly(st: seq<string>)
    ensures NoRepeat(NamesOf(st)) <==> !NameClash(st)
  {
    if a, k, b :| NameClashes(st, a, k, b) {
      var x, y := ClashRepeatsName(st, a, k, b);
    }
    if x, y :| 0 <= x < y < |NamesOf(st)| && NamesOf(st)[x] == NamesOf(st)[y] {
      RepeatedNameClashes(st, x, y);
    }
  }

  // --------------------------------------------------------- the whole file

  lemma IdentThen(a: string, b: string)
    requires IsIdent(a) && forall i :: 0 <= i < |b| ==> IsWordChar(b[i]) || b[i] == '_'
    ensures IsIdent(a + b)
  {
    var ab := a + b;
    assert forall i :: 0 <= i < |a| ==> ab[i] == a[i];
    assert forall i :: 0 <= i < |b| ==> ab[|a| + i] == b[i];
  }

  lemma {:induction false} TextsIdent(segs: seq<Segment>)
    ensures SegmentTexts(segs) == "" || IsIdent(SegmentTexts(segs))
  {
    if |segs| > 0 {
      var n := |segs| - 1;
      TextsIdent(segs[..n]);
      PascalIdent(if segs[n].Static? then segs[n].value else segs[n].name);
      IdentConcat(SegmentTexts(segs[..n]), SegmentText(segs[n]));
    }
  }

  lemma NamesAreIdents(segs: seq<Segment>, k: nat)
    ensures IsIdent(Helper(IdentOf(segs), k)) && IsIdent(Helper(IdentOf(segs), k) + PARAMS)
  {
    var a := IdentOf(segs);
    TextsIdent(segs);
    assert IsIdent("Index");
    if k >= 2 {
      IdentThen(a, "_");
      IdentThen(a + "_", Itoa(k));
    }
    IdentThen(Helper(a, k), PARAMS);
  }

  /** Every name is an identifier declared once, and every struct can be declared. */
  ghost predicate Declarable(routes: seq<LinkRoute>) {
    && NoRepeat(DeclaredNames(routes))
    && (forall s :: s in DeclaredNames(routes) ==> IsIdent(s))
    && (forall i :: 0 <= i < |routes| ==> Usable(routes[i].params))
  }

  lemma NamesOfLinks(ls: seq<ScannedRoute>)
    ensures DeclaredNames(LinkRoutes(ls)) == NamesOf(Bases(ls))
  {
  }

  lemma LinkNamesAreIdents(ls: seq<ScannedRoute>, s: string)
    requires s in NamesOf(Bases(ls))
    ensures IsIdent(s)
  {
    var st := Bases(ls);
    var x :| 0 <= x < |NamesOf(st)| && NamesOf(st)[x] == s;
    var i := if x < |st| then x else x - |st|;
    NamesAreIdents(ls[i].segs, Count(st[..i + 1], st[i]));
  }

  /**
   For every scan: the links file can be declared if and only if no linkable route's identifier
   reads like a name made from another's, and every linkable route's parameter names fit.
   */
  lemma LinksFileExactly(rs: seq<ScannedRoute>)
    ensures var ls := Linkable(rs);
      Declarable(LinkRoutes(ls))
      <==> !NameClash(Bases(ls)) && forall i :: 0 <= i < |ls| ==> FitNames(ls[i].segs)
  {
    var ls := Linkable(rs);
    var routes := LinkRoutes(ls);
    NamesOfLinks(ls);
    NamesDistinctExactly(Bases(ls));
    forall s | s in DeclaredNames(routes)
      ensures IsIdent(s)
    {
      LinkNamesAreIdents(ls, s);
    }
    forall i | 0 <= i < |ls|
      ensures Usable(routes[i].params) <==> FitNames(ls[i].segs)
    {
      UsableExactly(ls[i].segs);
    }
  }

  // ------------------------------------------------------------ ordinary clashes

  function PageAt(pattern: string, segs: seq<Segment>): ScannedRoute {
    ScannedRoute(pattern, segs, true, false)
  }

  lemma TwoLinkable(a: ScannedRoute, b: ScannedRoute)
    requires a.hasPage && b.hasPage
    ensures Linkable([a, b]) == [a, b] && Bases([a, b]) == [IdentOf(a.segs), IdentOf(b.segs)]
  {
    assert [a, b][..1] == [a] && [a][..0] == [];
    assert Linkable([]) == [] && Linkable([a]) == [a];
  }

  lemma IdentOfX()
    ensures IdentOf([Static("x")]) == "X" && SegmentTexts([Static("x")]) == "X"
  {
    assert "x"[..0] == "" && Titled("") == "" && Titled("x") == "X";
    assert [Static("x")][..0] == [] && SegmentTexts([]) == "";
  }

  lemma TextsOfTwo(a: Segment, b: Segment)
    ensures SegmentTexts([a, b]) == SegmentTexts([a]) + SegmentText(b)
  {
    assert [a, b][..1] == [a];
  }

  lemma IdentUnderX(value: string)
    ensures IdentOf([Static("x"), Static(value)]) == "X" + PascalCase(value)
  {
    IdentOfX();
    TextsOfTwo(Static("x"), Static(value));
  }

  lemma TitledLetter(s: string, c: char)
    requires |s| > 0 && IsLetter(s[|s| - 1]) && IsLower(c)
    ensures Titled(s + [c]) == Titled(s) + [c]
  {
    assert (s + [c])[..|s|] == s;
  }

  lemma TitledPara()
    ensures Titled("para") == "Para"
  {
    assert "p"[..0] == "" && Titled("") == "" && Titled("p") == "P";
    TitledLetter("p", 'a');
    assert "p" + ['a'] == "pa" && "P" + ['a'] == "Pa";
    TitledLetter("pa", 'r');
    assert "pa" + ['r'] == "par" && "Pa" + ['r'] == "Par";
    TitledLetter("par", 'a');
    assert "par" + ['a'] == "para" && "Par" + ['a'] == "Para";
  }

  lemma TitledParams()
    ensures Titled("params") == PARAMS
  {
    TitledPara();
    TitledLetter("para", 'm');
    assert "para" + ['m'] == "param" && "Para" + ['m'] == "Param";
    TitledLetter("param", 's');
    assert "param" + ['s'] == "params" && "Param" + ['s'] == PARAMS;
  }

  lemma PascalOfParams()
    ensures PascalCase("params") == PARAMS
  {
    TitledParams();
    assert PARAMS[0] == 'P';
  }

  /** Two plain pages: the type for /x is called XParams, and so is the function for /x/params. */
  lemma TypeAndFunctionClash()
    ensures var rs := [PageAt("/x", [Static("x")]), PageAt("/x/params", [Static("x"), Static("params")])];
      !Declarable(LinkRoutes(Linkable(rs)))
  {
    var rs := [PageAt("/x", [Static("x")]), PageAt("/x/params", [Static("x"), Static("params")])];
    TwoLinkable(rs[0], rs[1]);
    IdentOfX();
    IdentUnderX("params");
    PascalOfParams();
    var st := ["X", "XParams"];
    assert "X" + PARAMS == "XParams";
    assert Bases(rs) == st && st[0] in st && st[1] in st;
    MemberCounts(st, "X");
    assert NameClashes(st, "X", 1, "XParams");
    LinksFileExactly(rs);
  }

  lemma ThreeLinkable(a: ScannedRoute, b: ScannedRoute, c: ScannedRoute)
    requires a.hasPage && b.hasPage && c.hasPage
    ensures Linkable([a, b, c]) == [a, b, c]
    ensures Bases([a, b, c]) == [IdentOf(a.segs), IdentOf(b.segs), IdentOf(c.segs)]
  {
    TwoLinkable(a, b);
    assert [a, b, c][..2] == [a, b];
  }

  lemma OtherPieces()
    ensures PascalCase("2") == "_2" && IdentOf([Param("x", "")]) == "X"
  {
    assert "2"[..0] == "" && Titled("2") == "2";
    assert "x"[..0] == "" && Titled("x") == "X";
    assert [Param("x", "")][..0] == [] && SegmentTexts([]) == "";
  }

  /** Three pages: the second route lowered to X is numbered X_2, and so is the route /x/2. */
  lemma NumberedClash()
    ensures var rs := [PageAt("/[x]", [Param("x", "")]), PageAt("/x", [Static("x")]),
                       PageAt("/x/2", [Static("x"), Static("2")])];
      !Declarable(LinkRoutes(Linkable(rs)))
  {
    var rs := [PageAt("/[x]", [Param("x", "")]), PageAt("/x", [Static("x")]),
               PageAt("/x/2", [Static("x"), Static("2")])];
    ThreeLinkable(rs[0], rs[1], rs[2]);
    IdentOfX();
    IdentUnderX("2");
    OtherPieces();
    CountOfThree("X", "X", "X_2", "X");
    assert "X" + "_" + Itoa(2) == "X_2";
    assert "X" + "_2" == "X_2";
    assert Bases(rs) == ["X", "X", "X_2"] && ["X", "X", "X_2"][2] == "X_2";
    assert NameClashes(["X", "X", "X_2"], "X", 2, "X_2");
    LinksFileExactly(rs);
  }
}
