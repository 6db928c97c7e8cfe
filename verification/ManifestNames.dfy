/** Names in the generated manifest: every function named is declared, and nothing is declared twice. */
module ManifestNames {
  import opened Text
  import opened Aliases
  import opened Manifest
  import opened ManifestEmit
  import opened ManifestScope

  // ------------------------------------------------------- what is named is declared

  ghost predicate Declares(ds: seq<Decl>, n: Name) {
    exists d :: d in ds && d.name == n
  }

  ghost predicate CallsDeclared(ds: seq<Decl>) {
    forall d, n :: d in ds && n in d.calls ==> Declares(ds, n)
  }

  lemma RouteDeclares(c: Ctx, rs: seq<Route>, r: Route, d: Decl)
    requires r in rs && FromRoute(c, r, d)
    ensures Declares(Decls(c, rs), d.name)
  {
    InDecls(c, rs, d);
  }

  lemma LayoutDeclares(c: Ctx, rs: seq<Route>, p: string)
    requires p in c.layouts
    ensures Declares(Decls(c, rs), RenderLayout(AliasOf(c, p)))
    ensures p in c.served ==> Declares(Decls(c, rs), LoadLayout(AliasOf(c, p)))
  {
    var ds := ForPkg(LayoutAdapters, c, p);
    assert ds[0] in ds && FromPkg(c, ds[0]);
    InDecls(c, rs, ds[0]);
    if p in c.served {
      assert ds[1] in ds && FromPkg(c, ds[1]);
      InDecls(c, rs, ds[1]);
    }
  }

  lemma ErrorDeclares(c: Ctx, rs: seq<Route>, p: string)
    requires p in c.errors
    ensures Declares(Decls(c, rs), RenderError(AliasOf(c, p)))
  {
    var ds := ForPkg(ErrorAdapters, c, p);
    assert ds[0] in ds && FromPkg(c, ds[0]);
    InDecls(c, rs, ds[0]);
  }

  lemma HelperDeclares(c: Ctx, rs: seq<Route>, r: Route)
    requires r in rs && NeedsHelper(c, r)
    ensures Declares(Decls(c, rs), LayoutDataAt)
  {
    InDecls(c, rs, Helper());
    assert FromFile(c, rs, Helper());
    assert Helper() in Decls(c, rs) && Helper().name == LayoutDataAt;
  }

  lemma LayoutCallsDeclared(c: Ctx, rs: seq<Route>, ps: seq<string>, n: Name)
    requires n in LayoutCalls(c, ps)
    ensures Declares(Decls(c, rs), n)
  {
    var p :| p in ps && p in c.layouts && n == RenderLayout(AliasOf(c, p));
    LayoutDeclares(c, rs, p);
  }

  /** What a chain calls is there. */
  lemma ChainCallsDeclared(c: Ctx, rs: seq<Route>, r: Route, d: Decl, n: Name)
    requires r in rs && InChain(c, r, d) && n in d.calls
    ensures Declares(Decls(c, rs), n)
  {
    if d in ChainDecl(c, r) {
      PageChainCalls(c, rs, r, n);
    } else {
      ErrorChainCalls(c, rs, r, n);
    }
  }

  lemma PageChainCalls(c: Ctx, rs: seq<Route>, r: Route, n: Name)
    requires r in rs && HasChain(r) && n in {LayoutDataAt} + LayoutCalls(c, r.layouts)
    ensures Declares(Decls(c, rs), n)
  {
    if n == LayoutDataAt {
      HelperDeclares(c, rs, r);
    } else {
      LayoutCallsDeclared(c, rs, r.layouts, n);
    }
  }

  lemma ErrorChainCalls(c: Ctx, rs: seq<Route>, r: Route, n: Name)
    requires r in rs && HasErrorChain(c, r) && n in {RenderError(AliasOf(c, r.errorPkg))} + LayoutCalls(c, Surviving(r))
    ensures Declares(Decls(c, rs), n)
  {
    if n == RenderError(AliasOf(c, r.errorPkg)) {
      ErrorDeclares(c, rs, r.errorPkg);
    } else {
      LayoutCallsDeclared(c, rs, Surviving(r), n);
    }
  }

  lemma PageCallDeclared(c: Ctx, rs: seq<Route>, opts: Options, r: Route, n: Name)
    requires Scanned(c, rs, opts) && r in Entries(rs) && n in PageCall(c, r)
    ensures Declares(Decls(c, Entries(rs)), n)
  {
    if r.pattern in opts.ssr {
      var d := RenderAdapter(c, r)[0];
      assert d in ForRoute(RenderAdapters, c, r);
      RouteDeclares(c, Entries(rs), r, d);
    } else {
      var other := FallbackIsPage(rs, opts, r.pattern);
      var d := FallbackAdapter(c, r)[0];
      assert d in ForRoute(FallbackAdapters, c, r);
      RouteDeclares(c, Entries(rs), r, d);
    }
  }

  lemma ChainNameDeclared(c: Ctx, rs: seq<Route>, r: Route)
    requires r in rs
    ensures HasChain(r) ==> Declares(Decls(c, rs), RenderChain(r.ident))
    ensures HasErrorChain(c, r) ==> Declares(Decls(c, rs), RenderErrorChain(r.ident))
  {
    if HasChain(r) {
      var d := ChainDecl(c, r)[0];
      assert InChain(c, r, d);
      RouteDeclares(c, rs, r, d);
    }
    if HasErrorChain(c, r) {
      var d := ErrorChainDecl(c, r)[0];
      assert InChain(c, r, d);
      RouteDeclares(c, rs, r, d);
    }
  }

  /** Every handler a table entry names is declared. */
  lemma EntryCallsDeclared(c: Ctx, rs: seq<Route>, opts: Options, r: Route, n: Name)
    requires Scanned(c, rs, opts) && r in Entries(rs) && n in EntryCalls(c, r)
    ensures Declares(Decls(c, Entries(rs)), n)
  {
    ChainNameDeclared(c, Entries(rs), r);
    if n in PageCall(c, r) {
      PageCallDeclared(c, rs, opts, r, n);
    } else if n in LoaderCalls(c, r) {
      var p :| p in r.layouts && p in c.layouts && p in c.served && n == LoadLayout(AliasOf(c, p));
      LayoutDeclares(c, Entries(rs), p);
    }
  }

  lemma AdaptersCallNothing(c: Ctx, d: Decl)
    requires FromPkg(c, d) || exists r :: FromRoute(c, r, d) && !InChain(c, r, d)
    ensures d.calls == {}
  {
  }

  /** Only the table and the chains name functions. */
  lemma WhoCalls(c: Ctx, rs: seq<Route>, d: Decl)
    requires d in Decls(c, rs) && d.calls != {}
    ensures d == RoutesDecl(c, rs) || exists r :: r in rs && InChain(c, r, d)
  {
    InDecls(c, rs, d);
    if FromPkg(c, d) {
      AdaptersCallNothing(c, d);
    } else if r :| r in rs && FromRoute(c, r, d) {
      if !InChain(c, r, d) {
        AdaptersCallNothing(c, d);
      }
    }
  }

  lemma TableCallsDeclared(c: Ctx, rs: seq<Route>, opts: Options, n: Name)
    requires Scanned(c, rs, opts) && n in RoutesCalls(c, Entries(rs))
    ensures Declares(Decls(c, Entries(rs)), n)
  {
    InRoutesCalls(c, Entries(rs), n);
    var r :| r in Entries(rs) && n in EntryCalls(c, r);
    EntryCallsDeclared(c, rs, opts, r, n);
  }

  lemma OneCallDeclared(c: Ctx, rs: seq<Route>, opts: Options, d: Decl, n: Name)
    requires Scanned(c, rs, opts) && d in Decls(c, Entries(rs)) && n in d.calls
    ensures Declares(Decls(c, Entries(rs)), n)
  {
    WhoCalls(c, Entries(rs), d);
    if d == RoutesDecl(c, Entries(rs)) {
      TableCallsDeclared(c, rs, opts, n);
    } else {
      var r :| r in Entries(rs) && InChain(c, r, d);
      ChainCallsDeclared(c, Entries(rs), r, d, n);
    }
  }

  /** Everything named in the file, the handlers in Routes() among it, is declared in it. */
  lemma AllCallsDeclared(c: Ctx, rs: seq<Route>, opts: Options)
    requires Scanned(c, rs, opts)
    ensures CallsDeclared(Decls(c, Entries(rs)))
  {
    forall d, n | d in Decls(c, Entries(rs)) && n in d.calls
      ensures Declares(Decls(c, Entries(rs)), n)
    {
      OneCallDeclared(c, rs, opts, d, n);
    }
  }

  // ------------------------------------------------------------ which pages are served

  /** Some route with this pattern is transpiled or goes through the sidecar. */
  ghost predicate PatternPlanned(rs: seq<Route>, o: RouteOptions, pattern: string) {
    exists q :: q in rs && q.pattern == pattern && PlanOf(q, o) != Skip
  }

  lemma PlannedExactly(rs: seq<Route>, opts: Options, pattern: string)
    requires FromPlan(rs, opts)
    ensures pattern in opts.ssr || pattern in opts.fallback <==> PatternPlanned(rs, opts.routes, pattern)
  {
    if q :| q in rs && q.pattern == pattern && PlanOf(q, opts.routes) != Skip {
      PlannedHas(rs, opts.routes, PlanOf(q, opts.routes), q);
    }
    if pattern in opts.ssr {
      PlannedFrom(rs, opts.routes, Transpile, pattern);
    } else if pattern in opts.fallback {
      PlannedFrom(rs, opts.routes, Sidecar, pattern);
    }
  }

  /**
   A page route is given a Page handler if and only if it has no server file and its pattern is
   planned; when no other route has its pattern, if and only if it is planned itself.
   */
  lemma PageHandlerExactly(c: Ctx, rs: seq<Route>, opts: Options, r: Route)
    requires Scanned(c, rs, opts) && r in Entries(rs) && r.hasPage
    ensures PageCall(c, r) != {} <==> !r.hasServer && PatternPlanned(rs, opts.routes, r.pattern)
    ensures (forall q :: q in rs && q.pattern == r.pattern ==> q == r) ==>
      (PageCall(c, r) != {} <==> !r.hasServer && PlanOf(r, opts.routes) != Skip)
  {
    InEntries(rs, r);
    PlannedExactly(rs, opts, r.pattern);
    assert PageCall(c, r) == {} || RenderPage(AliasOf(c, r.pkg)) in PageCall(c, r)
        || RenderFallback(r.ident) in PageCall(c, r);
  }

  /** This page's table entry names its package's adapter. */
  predicate NamesAdapter(opts: Options, q: Route) {
    q.hasPage && !q.hasServer && q.pattern in opts.ssr
  }

  lemma EntryNamesAdapter(c: Ctx, q: Route, a: string)
    ensures RenderPage(a) in EntryCalls(c, q) <==> NamesAdapter(c.opts, q) && AliasOf(c, q.pkg) == a
  {
    assert RenderPage(a) !in LoaderCalls(c, q);
  }

  /** The table names an adapter if and only if a page of its package has an SSR emit and no server file. */
  lemma AdapterNamedExactly(c: Ctx, rs: seq<Route>, opts: Options, r: Route)
    requires Collected(c, rs, opts) && r in Entries(rs)
    ensures RenderPage(AliasOf(c, r.pkg)) in RoutesCalls(c, Entries(rs))
       <==> exists q :: q in Entries(rs) && q.pkg == r.pkg && NamesAdapter(opts, q)
  {
    var es, a := Entries(rs), AliasOf(c, r.pkg);
    InRoutesCalls(c, es, RenderPage(a));
    forall q | q in es
      ensures RenderPage(a) in EntryCalls(c, q) <==> q.pkg == r.pkg && NamesAdapter(opts, q)
    {
      EntryNamesAdapter(c, q, a);
      SameAlias(c.aliases, q.pkg, r.pkg);
    }
  }

  lemma SameAlias(aliases: map<string, string>, p: string, q: string)
    requires Distinct(aliases) && p in aliases && q in aliases
    ensures aliases[p] == aliases[q] <==> p == q
  {
  }

  /** A page that is not in Svelte mode: its adapter is declared, and no handler field names it. */
  lemma PlainPageUnserved(c: Ctx, rs: seq<Route>, opts: Options, r: Route)
    requires Scanned(c, rs, opts) && r in Entries(rs) && r.hasPage && !IsSvelte(opts.routes, r.pattern)
    ensures Declares(Decls(c, Entries(rs)), RenderPage(AliasOf(c, r.pkg))) && PageCall(c, r) == {}
    ensures (forall q :: q in Entries(rs) && q.pkg == r.pkg ==> q == r) ==>
      RenderPage(AliasOf(c, r.pkg)) !in RoutesCalls(c, Entries(rs))
  {
    var d := RenderAdapter(c, r)[0];
    assert d in ForRoute(RenderAdapters, c, r);
    RouteDeclares(c, Entries(rs), r, d);
    if r.pattern in opts.ssr {
      SsrIsSvelte(rs, opts, r.pattern);
    }
    if r.pattern in opts.fallback {
      var other := FallbackIsPage(rs, opts, r.pattern);
    }
    AdapterNamedExactly(c, rs, opts, r);
  }

  // ------------------------------------------------------------- declared only once

  ghost predicate DeclaredOnce(ds: seq<Decl>) {
    forall i, j :: 0 <= i < j < |ds| ==> ds[i].name != ds[j].name
  }

  ghost predicate Apart(a: seq<Decl>, b: seq<Decl>) {
    forall x, y :: x in a && y in b ==> x.name != y.name
  }

  lemma OnceConcat(a: seq<Decl>, b: seq<Decl>)
    ensures DeclaredOnce(a + b) <==> DeclaredOnce(a) && DeclaredOnce(b) && Apart(a, b)
  {
    var ab := a + b;
    if DeclaredOnce(ab) {
      forall i, j | 0 <= i < j < |a|
        ensures a[i].name != a[j].name
      {
        assert ab[i] == a[i] && ab[j] == a[j];
      }
      forall i, j | 0 <= i < j < |b|
        ensures b[i].name != b[j].name
      {
        assert ab[|a| + i] == b[i] && ab[|a| + j] == b[j];
      }
      forall x, y | x in a && y in b
        ensures x.name != y.name
      {
        var i :| 0 <= i < |a| && a[i] == x;
        var j :| 0 <= j < |b| && b[j] == y;
        assert ab[i] == x && ab[|a| + j] == y;
      }
    }
  }

  /** Which section of the file a name belongs to. */
  function Section(n: Name): nat {
    match n
    case HasServiceWorker => 0
    case RouteID(_) => 1
    case RenderPage(_) => 2
    case RenderFallback(_) => 3
    case Init => 4
    case RenderLayout(_) => 5
    case LoadLayout(_) => 5
    case RenderError(_) => 6
    case LayoutDataAt => 7
    case RenderChain(_) => 7
    case RenderErrorChain(_) => 7
    case Routes => 8
  }

  ghost predicate InSections(ds: seq<Decl>, lo: nat, hi: nat) {
    forall d :: d in ds ==> lo <= Section(d.name) < hi
  }

  /** Sections are apart, so each can be looked at alone. */
  lemma NextSection(a: seq<Decl>, b: seq<Decl>, k: nat)
    requires InSections(a, 0, k) && InSections(b, k, k + 1)
    ensures InSections(a + b, 0, k + 1)
    ensures DeclaredOnce(a + b) <==> DeclaredOnce(a) && DeclaredOnce(b)
  {
    OnceConcat(a, b);
  }

  ghost predicate RoutesApart(k: RouteSection, c: Ctx, a: Route, b: Route) {
    Apart(ForRoute(k, c, a), ForRoute(k, c, b))
  }

  ghost predicate PairsApart(k: RouteSection, c: Ctx, rs: seq<Route>) {
    forall i, j :: 0 <= i < j < |rs| ==> RoutesApart(k, c, rs[i], rs[j])
  }

  ghost predicate LastApart(k: RouteSection, c: Ctx, before: seq<Route>, r: Route) {
    forall i :: 0 <= i < |before| ==> RoutesApart(k, c, before[i], r)
  }

  lemma PairsStep(k: RouteSection, c: Ctx, before: seq<Route>, r: Route)
    ensures PairsApart(k, c, before + [r]) <==> PairsApart(k, c, before) && LastApart(k, c, before, r)
  {
    var rs, n := before + [r], |before|;
    if PairsApart(k, c, rs) {
      forall i, j | 0 <= i < j < n
        ensures RoutesApart(k, c, before[i], before[j])
      {
        assert rs[i] == before[i] && rs[j] == before[j];
      }
      forall i | 0 <= i < n
        ensures RoutesApart(k, c, before[i], r)
      {
        assert rs[i] == before[i] && rs[n] == r;
      }
    }
  }

  lemma SectionApart(k: RouteSection, c: Ctx, before: seq<Route>, r: Route)
    ensures Apart(ForRoutes(k, c, before), ForRoute(k, c, r)) <==> LastApart(k, c, before, r)
  {
    var last := ForRoute(k, c, r);
    if Apart(ForRoutes(k, c, before), last) {
      forall i | 0 <= i < |before|
        ensures RoutesApart(k, c, before[i], r)
      {
        forall x | x in ForRoute(k, c, before[i])
          ensures x in ForRoutes(k, c, before)
        {
          InForRoutes(k, c, before, x);
        }
      }
    } else {
      var x, y :| x in ForRoutes(k, c, before) && y in last && x.name == y.name;
      InForRoutes(k, c, before, x);
      var a :| a in before && x in ForRoute(k, c, a);
      var i :| 0 <= i < |before| && before[i] == a;
      assert !RoutesApart(k, c, before[i], r);
    }
  }

  lemma OneRouteOnce(k: RouteSection, c: Ctx, r: Route)
    ensures DeclaredOnce(ForRoute(k, c, r))
  {
  }

  lemma SectionStep(k: RouteSection, c: Ctx, before: seq<Route>, r: Route, ds: seq<Decl>)
    requires ds == ForRoutes(k, c, before) + ForRoute(k, c, r)
    ensures DeclaredOnce(ds) <==> DeclaredOnce(ForRoutes(k, c, before)) && LastApart(k, c, before, r)
  {
    OnceConcat(ForRoutes(k, c, before), ForRoute(k, c, r));
    OneRouteOnce(k, c, r);
    SectionApart(k, c, before, r);
  }

  lemma {:induction false} RouteSectionOnce(k: RouteSection, c: Ctx, rs: seq<Route>)
    ensures DeclaredOnce(ForRoutes(k, c, rs)) <==> PairsApart(k, c, rs)
  {
    if |rs| > 0 {
      var before, r := rs[..|rs| - 1], rs[|rs| - 1];
      RouteSectionOnce(k, c, before);
      SectionGrows(k, c, before, r, rs);
    }
  }

  lemma SectionGrows(k: RouteSection, c: Ctx, before: seq<Route>, r: Route, rs: seq<Route>)
    requires |rs| > 0 && before == rs[..|rs| - 1] && r == rs[|rs| - 1]
    requires DeclaredOnce(ForRoutes(k, c, before)) <==> PairsApart(k, c, before)
    ensures DeclaredOnce(ForRoutes(k, c, rs)) <==> PairsApart(k, c, rs)
  {
    SectionStep(k, c, before, r, ForRoutes(k, c, rs));
    PairsStep(k, c, before, r);
    Rejoin(rs, before, r);
  }

  lemma Rejoin(rs: seq<Route>, before: seq<Route>, r: Route)
    requires |rs| > 0 && before == rs[..|rs| - 1] && r == rs[|rs| - 1]
    ensures rs == before + [r]
  {
  }

  /** Routes with a render adapter of their own are in different packages. */
  predicate AdaptersApart(opts: Options, es: seq<Route>) {
    forall i, j :: 0 <= i < j < |es| && Adapted(opts, es[i]) && Adapted(opts, es[j]) ==> es[i].pkg != es[j].pkg
  }

  lemma PagesOnce(c: Ctx, es: seq<Route>)
    requires Distinct(c.aliases) && NamedRoutes(c.aliases, es)
    ensures DeclaredOnce(ForRoutes(RenderAdapters, c, es)) <==> AdaptersApart(c.opts, es)
  {
    RouteSectionOnce(RenderAdapters, c, es);
    forall i, j | 0 <= i < j < |es|
      ensures RoutesApart(RenderAdapters, c, es[i], es[j])
         <==> (Adapted(c.opts, es[i]) && Adapted(c.opts, es[j]) ==> es[i].pkg != es[j].pkg)
    {
      PagesApart(c, es[i], es[j]);
    }
  }

  lemma PagesApart(c: Ctx, a: Route, b: Route)
    requires Distinct(c.aliases) && a.pkg in c.aliases && b.pkg in c.aliases
    ensures RoutesApart(RenderAdapters, c, a, b)
       <==> (Adapted(c.opts, a) && Adapted(c.opts, b) ==> a.pkg != b.pkg)
  {
  }

  lemma IdentsOnce(k: RouteSection, c: Ctx, es: seq<Route>)
    requires k != RenderAdapters && !Collides(es)
    ensures DeclaredOnce(ForRoutes(k, c, es))
  {
    RouteSectionOnce(k, c, es);
  }

  lemma OnePkgOnce(k: PkgSection, c: Ctx, p: string)
    ensures DeclaredOnce(ForPkg(k, c, p))
  {
  }

  lemma PkgApart(k: PkgSection, c: Ctx, ps: seq<string>, q: string)
    requires Distinct(c.aliases) && Named(c.aliases, ps) && q in c.aliases && q !in ps
    ensures Apart(ForPkgs(k, c, ps), ForPkg(k, c, q))
  {
    forall x, y | x in ForPkgs(k, c, ps) && y in ForPkg(k, c, q)
      ensures x.name != y.name
    {
      InForPkgs(k, c, ps, x);
      var p :| p in ps && x in ForPkg(k, c, p);
      PkgsApart(k, c, p, q, x, y);
    }
  }

  lemma {:induction false} PkgSectionOnce(k: PkgSection, c: Ctx, ps: seq<string>)
    requires Distinct(c.aliases) && Named(c.aliases, ps) && NoRepeat(ps)
    ensures DeclaredOnce(ForPkgs(k, c, ps))
  {
    if |ps| > 0 {
      var before, q := ps[..|ps| - 1], ps[|ps| - 1];
      PkgSectionOnce(k, c, before);
      OnePkgOnce(k, c, q);
      PkgApart(k, c, before, q);
      OnceConcat(ForPkgs(k, c, before), ForPkg(k, c, q));
    }
  }

  lemma PkgsApart(k: PkgSection, c: Ctx, p: string, q: string, x: Decl, y: Decl)
    requires Distinct(c.aliases) && p in c.aliases && q in c.aliases && p != q
    requires x in ForPkg(k, c, p) && y in ForPkg(k, c, q)
    ensures x.name != y.name
  {
  }

  lemma {:induction false} AddAllOnce(seen: seq<string>, ps: seq<string>)
    requires NoRepeat(seen)
    ensures NoRepeat(AddAll(seen, ps))
  {
    if |ps| > 0 {
      AddAllOnce(seen, ps[..|ps| - 1]);
    }
  }

  lemma {:induction false} LayoutPkgsOnce(rs: seq<Route>)
    ensures NoRepeat(LayoutPkgs(rs)) && NoRepeat(ErrorPkgs(rs))
  {
    if |rs| > 0 {
      var n := |rs| - 1;
      LayoutPkgsOnce(rs[..n]);
      AddAllOnce(LayoutPkgs(rs[..n]), rs[n].layouts);
    }
  }

  // ------------------------------------------------------------------- the chains

  /** The chain declarations of one route, with the helper if it is the first to need it. */
  function ChainPart(c: Ctx, rs: seq<Route>): seq<Decl>
    requires |rs| > 0
  {
    var n := |rs| - 1;
    (if NeedsHelper(c, rs[n]) && !AnyNeedsHelper(c, rs[..n]) then [Helper()] else [])
    + (ChainDecl(c, rs[n]) + ErrorChainDecl(c, rs[n]))
  }

  lemma ChainsStep(c: Ctx, rs: seq<Route>)
    requires |rs| > 0
    ensures Chains(c, rs) == Chains(c, rs[..|rs| - 1]) + ChainPart(c, rs)
  {
  }

  lemma ChainIdent(c: Ctx, r: Route, d: Decl)
    requires InChain(c, r, d)
    ensures d.name == RenderChain(r.ident) || d.name == RenderErrorChain(r.ident)
  {
  }

  lemma InChainPart(c: Ctx, rs: seq<Route>, y: Decl)
    requires |rs| > 0 && y in ChainPart(c, rs)
    ensures InChain(c, rs[|rs| - 1], y) || (y == Helper() && !AnyNeedsHelper(c, rs[..|rs| - 1]))
  {
  }

  lemma ChainPartApart(c: Ctx, rs: seq<Route>, x: Decl, y: Decl)
    requires |rs| > 0 && !Collides(rs) && x in Chains(c, rs[..|rs| - 1]) && y in ChainPart(c, rs)
    ensures x.name != y.name
  {
    var n := |rs| - 1;
    InChains(c, rs[..n], x);
    InChainPart(c, rs, y);
    if InChain(c, rs[n], y) {
      ChainIdent(c, rs[n], y);
    }
    if r :| r in rs[..n] && InChain(c, r, x) {
      ChainIdent(c, r, x);
      var i :| 0 <= i < n && rs[i] == r;
      assert rs[i].ident != rs[n].ident;
    }
  }

  lemma ChainPartOnce(c: Ctx, rs: seq<Route>)
    requires |rs| > 0
    ensures DeclaredOnce(ChainPart(c, rs))
  {
  }

  lemma ChainsApart(c: Ctx, rs: seq<Route>)
    requires |rs| > 0 && !Collides(rs)
    ensures Apart(Chains(c, rs[..|rs| - 1]), ChainPart(c, rs))
  {
    forall x, y | x in Chains(c, rs[..|rs| - 1]) && y in ChainPart(c, rs)
      ensures x.name != y.name
    {
      ChainPartApart(c, rs, x, y);
    }
  }

  lemma CollidesLess(rs: seq<Route>)
    requires |rs| > 0 && !Collides(rs)
    ensures !Collides(rs[..|rs| - 1])
  {
  }

  lemma {:induction false} ChainsOnce(c: Ctx, rs: seq<Route>)
    requires !Collides(rs)
    ensures DeclaredOnce(Chains(c, rs))
  {
    if |rs| > 0 {
      var before := rs[..|rs| - 1];
      CollidesLess(rs);
      ChainsOnce(c, before);
      ChainPartOnce(c, rs);
      ChainsApart(c, rs);
      ChainsStep(c, rs);
      OnceConcat(Chains(c, before), ChainPart(c, rs));
    }
  }

  // ----------------------------------------------------------------- the whole file

  /** The sections, one after the other. */
  function SectionOf(k: RouteSection): nat {
    match k
    case RouteIDs => 1
    case RenderAdapters => 2
    case FallbackAdapters => 3
  }

  lemma RouteInSection(k: RouteSection, c: Ctx, r: Route, d: Decl)
    requires d in ForRoute(k, c, r)
    ensures Section(d.name) == SectionOf(k)
  {
  }

  lemma RoutesSection(k: RouteSection, c: Ctx, es: seq<Route>)
    ensures InSections(ForRoutes(k, c, es), SectionOf(k), SectionOf(k) + 1)
  {
    forall d | d in ForRoutes(k, c, es)
      ensures Section(d.name) == SectionOf(k)
    {
      InForRoutes(k, c, es, d);
      var r :| r in es && d in ForRoute(k, c, r);
      RouteInSection(k, c, r, d);
    }
  }

  function PkgSectionOf(k: PkgSection): nat {
    match k
    case LayoutAdapters => 5
    case ErrorAdapters => 6
  }

  lemma PkgInSection(k: PkgSection, c: Ctx, p: string, d: Decl)
    requires d in ForPkg(k, c, p)
    ensures Section(d.name) == PkgSectionOf(k)
  {
  }

  lemma PkgsSection(k: PkgSection, c: Ctx, ps: seq<string>)
    ensures InSections(ForPkgs(k, c, ps), PkgSectionOf(k), PkgSectionOf(k) + 1)
  {
    forall d | d in ForPkgs(k, c, ps)
      ensures Section(d.name) == PkgSectionOf(k)
    {
      InForPkgs(k, c, ps, d);
      var p :| p in ps && d in ForPkg(k, c, p);
      PkgInSection(k, c, p, d);
    }
  }

  lemma InChainSection(c: Ctx, r: Route, d: Decl)
    requires InChain(c, r, d)
    ensures Section(d.name) == 7
  {
  }

  lemma ChainSection(c: Ctx, es: seq<Route>)
    ensures InSections(Chains(c, es), 7, 8)
  {
    forall d | d in Chains(c, es)
      ensures 7 <= Section(d.name) < 8
    {
      InChains(c, es, d);
      if r :| r in es && InChain(c, r, d) {
        InChainSection(c, r, d);
      }
    }
  }

  /** The first five sections. */
  function Front(c: Ctx, es: seq<Route>): seq<Decl> {
    [Decl(HasServiceWorker, {}, {})]
    + ForRoutes(RouteIDs, c, es)
    + ForRoutes(RenderAdapters, c, es)
    + ForRoutes(FallbackAdapters, c, es)
    + FallbackInit(c)
  }

  lemma FiveSections(a: seq<Decl>, b: seq<Decl>, d: seq<Decl>, e: seq<Decl>, f: seq<Decl>)
    requires InSections(a, 0, 1) && InSections(b, 1, 2) && InSections(d, 2, 3)
    requires InSections(e, 3, 4) && InSections(f, 4, 5)
    requires DeclaredOnce(a) && DeclaredOnce(b) && DeclaredOnce(e) && DeclaredOnce(f)
    ensures InSections(a + b + d + e + f, 0, 5)
    ensures DeclaredOnce(a + b + d + e + f) <==> DeclaredOnce(d)
  {
    NextSection(a, b, 1);
    NextSection(a + b, d, 2);
    NextSection(a + b + d, e, 3);
    NextSection(a + b + d + e, f, 4);
  }

  lemma LoneOnce(d: Decl)
    ensures DeclaredOnce([d]) && InSections([d], Section(d.name), Section(d.name) + 1)
  {
  }

  lemma InitOnce(c: Ctx)
    ensures DeclaredOnce(FallbackInit(c)) && InSections(FallbackInit(c), 4, 5)
  {
    LoneOnce(Decl(Init, {FallbackPkg}, {}));
  }

  lemma FrontOnce(c: Ctx, es: seq<Route>)
    requires Distinct(c.aliases) && NamedRoutes(c.aliases, es) && !Collides(es)
    ensures InSections(Front(c, es), 0, 5)
    ensures DeclaredOnce(Front(c, es)) <==> AdaptersApart(c.opts, es)
  {
    LoneOnce(Decl(HasServiceWorker, {}, {}));
    InitOnce(c);
    RoutesSection(RouteIDs, c, es);
    RoutesSection(RenderAdapters, c, es);
    RoutesSection(FallbackAdapters, c, es);
    IdentsOnce(RouteIDs, c, es);
    PagesOnce(c, es);
    IdentsOnce(FallbackAdapters, c, es);
    FiveSections([Decl(HasServiceWorker, {}, {})], ForRoutes(RouteIDs, c, es), ForRoutes(RenderAdapters, c, es),
                 ForRoutes(FallbackAdapters, c, es), FallbackInit(c));
  }

  /** A list in one section, with nothing declared twice. */
  ghost predicate OnceIn(k: nat, ds: seq<Decl>) {
    InSections(ds, k, k + 1) && DeclaredOnce(ds)
  }

  lemma AddSection(front: seq<Decl>, a: seq<Decl>, k: nat)
    requires InSections(front, 0, k) && OnceIn(k, a)
    ensures InSections(front + a, 0, k + 1) && (DeclaredOnce(front + a) <==> DeclaredOnce(front))
  {
    NextSection(front, a, k);
  }

  lemma FourMore(front: seq<Decl>, a: seq<Decl>, b: seq<Decl>, d: seq<Decl>, e: seq<Decl>)
    requires InSections(front, 0, 5) && OnceIn(5, a) && OnceIn(6, b) && OnceIn(7, d) && OnceIn(8, e)
    ensures DeclaredOnce(front + a + b + d + e) <==> DeclaredOnce(front)
  {
    AddSection(front, a, 5);
    AddSection(front + a, b, 6);
    AddSection(front + a + b, d, 7);
    AddSection(front + a + b + d, e, 8);
  }

  lemma PkgsOnceIn(k: PkgSection, c: Ctx, ps: seq<string>)
    requires Distinct(c.aliases) && Named(c.aliases, ps) && NoRepeat(ps)
    ensures OnceIn(PkgSectionOf(k), ForPkgs(k, c, ps))
  {
    PkgsSection(k, c, ps);
    PkgSectionOnce(k, c, ps);
  }

  lemma ChainsOnceIn(c: Ctx, es: seq<Route>)
    requires !Collides(es)
    ensures OnceIn(7, Chains(c, es))
  {
    ChainSection(c, es);
    ChainsOnce(c, es);
  }

  lemma TableOnceIn(c: Ctx, es: seq<Route>)
    ensures OnceIn(8, [RoutesDecl(c, es)])
  {
    LoneOnce(RoutesDecl(c, es));
  }

  /** The rest. */
  lemma BackOnce(c: Ctx, es: seq<Route>, front: seq<Decl>)
    requires Distinct(c.aliases) && Named(c.aliases, c.layouts) && Named(c.aliases, c.errors)
    requires NoRepeat(c.layouts) && NoRepeat(c.errors) && !Collides(es) && InSections(front, 0, 5)
    ensures DeclaredOnce(front + ForPkgs(LayoutAdapters, c, c.layouts) + ForPkgs(ErrorAdapters, c, c.errors)
                         + Chains(c, es) + [RoutesDecl(c, es)])
       <==> DeclaredOnce(front)
  {
    PkgsOnceIn(LayoutAdapters, c, c.layouts);
    PkgsOnceIn(ErrorAdapters, c, c.errors);
    ChainsOnceIn(c, es);
    TableOnceIn(c, es);
    FourMore(front, ForPkgs(LayoutAdapters, c, c.layouts), ForPkgs(ErrorAdapters, c, c.errors), Chains(c, es),
             [RoutesDecl(c, es)]);
  }

  /** Nothing is declared twice if and only if routes with render adapters are in different packages. */
  lemma DeclaredOnceExactly(c: Ctx, rs: seq<Route>, opts: Options)
    requires Collected(c, rs, opts) && !Collides(Entries(rs))
    ensures DeclaredOnce(Decls(c, Entries(rs))) <==> AdaptersApart(opts, Entries(rs))
  {
    LayoutPkgsOnce(rs);
    FrontOnce(c, Entries(rs));
    BackOnce(c, Entries(rs), Front(c, Entries(rs)));
  }

  // ------------------------------------------------------------------ well scoped

  /** Every import used and every use imported, every name called declared, every name declared once. */
  ghost predicate WellScoped(out: Output) {
    ImportsMatch(out) && CallsDeclared(out.decls) && DeclaredOnce(out.decls)
  }

  /**
   A manifest generated from planSSR's plans is well scoped if and only if kit has a use
   (it does whenever page options are given) and no two pages with adapters share a package.
   */
  lemma WellScopedExactly(c: Ctx, rs: seq<Route>, opts: Options, out: Output)
    requires Scanned(c, rs, opts) && !Collides(Entries(rs)) && Emitted(c, Entries(rs), out)
    ensures WellScoped(out) <==> KitHasUse(rs, opts) && AdaptersApart(opts, Entries(rs))
  {
    ImportsMatchExactly(c, rs, opts, out);
    AllCallsDeclared(c, rs, opts);
    DeclaredOnceExactly(c, rs, opts);
  }

  /** Without page options, a lone API route imports kit and never uses it. */
  lemma ServerOnlyWithoutOptions(r: Route)
    requires r.hasServer && !r.hasPage && r.layouts == [] && r.errorPkg == ""
    ensures !KitHasUse([r], Options(None, {}, [])) && FromPlan([r], Options(None, {}, []))
  {
    LoneRoute(r);
    LonePlan(r, Transpile);
    LonePlan(r, Sidecar);
  }

  lemma LoneRoute(r: Route)
    requires r.hasServer && r.layouts == [] && r.errorPkg == ""
    ensures Entries([r]) == [r] && LayoutPkgs([r]) == [] && ErrorPkgs([r]) == []
  {
    assert [r][..0] == [];
    assert Entries([]) == [] && LayoutPkgs([]) == [] && ErrorPkgs([]) == [];
  }

  lemma LonePlan(r: Route, plan: Plan)
    requires !r.hasPage && plan != Skip
    ensures Planned([r], None, plan) == []
  {
    assert [r][..0] == [];
    assert PlanOf(r, None) == Skip;
    assert Planned([], None, plan) == [];
  }

  // ---------------------------------------------------- the names as they are spelled

  function Spelled(n: Name): string {
    match n
    case HasServiceWorker => "HasServiceWorker"
    case RouteID(ident) => "RouteID" + ident
    case RenderPage(alias) => "render__" + alias
    case RenderFallback(ident) => "renderFallback__" + ident
    case Init => "init"
    case RenderLayout(alias) => "render__layout__" + alias
    case LoadLayout(alias) => "loadLayout__" + alias
    case RenderError(alias) => "renderError__" + alias
    case LayoutDataAt => "layoutDataAt"
    case RenderChain(ident) => "renderChain__" + ident
    case RenderErrorChain(ident) => "renderErrorChain__" + ident
    case Routes => "Routes"
  }

  /** Which kind of name a spelling is, and how long the fixed part of it. */
  function KindOf(s: string): (nat, nat) {
    if |s| < 4 then (99, 0)
    else if s[0] == 'H' then (0, 16)
    else if s[0] == 'i' then (4, 4)
    else if |s| < 6 then (99, 0)
    else if s[0] == 'R' then (if s[5] == 's' then (11, 6) else (1, 7))
    else if s[0] == 'l' then (if s[1] == 'o' then (6, 12) else (8, 12))
    else if |s| < 12 then (99, 0)
    else if s[6] == 'F' then (3, 16)
    else if s[6] == 'C' then (9, 13)
    else if s[6] == 'E' then (if s[11] == 'C' then (10, 18) else (7, 13))
    else if s[8] == 'l' then (5, 16)
    else (2, 8)
  }

  function Kind(n: Name): (nat, nat) {
    match n
    case HasServiceWorker => (0, 16)
    case RouteID(_) => (1, 7)
    case RenderPage(_) => (2, 8)
    case RenderFallback(_) => (3, 16)
    case Init => (4, 4)
    case RenderLayout(_) => (5, 16)
    case LoadLayout(_) => (6, 12)
    case RenderError(_) => (7, 13)
    case LayoutDataAt => (8, 12)
    case RenderChain(_) => (9, 13)
    case RenderErrorChain(_) => (10, 18)
    case Routes => (11, 6)
  }

  /** What a name is made from. */
  function Suffix(n: Name): string {
    match n
    case RouteID(ident) => ident
    case RenderPage(alias) => alias
    case RenderFallback(ident) => ident
    case RenderLayout(alias) => alias
    case LoadLayout(alias) => alias
    case RenderError(alias) => alias
    case RenderChain(ident) => ident
    case RenderErrorChain(ident) => ident
    case _ => ""
  }

  lemma FixedThen(fixed: string, s: string)
    ensures |fixed + s| >= |fixed| && (fixed + s)[|fixed|..] == s
    ensures forall i :: 0 <= i < |fixed| ==> (fixed + s)[i] == fixed[i]
  {
  }

  lemma PageKind(alias: string)
    requires HasPrefix(alias, STEM)
    ensures KindOf("render__" + alias) == (2, 8)
  {
    FixedThen("render__", alias);
    assert |alias| >= 5 && alias[0] == alias[..5][0] == 'p';
    assert ("render__" + alias)[8] == alias[0];
  }

  lemma RenderKinds(s: string)
    ensures KindOf("renderFallback__" + s) == (3, 16) && KindOf("render__layout__" + s) == (5, 16)
    ensures KindOf("renderError__" + s) == (7, 13) && KindOf("renderChain__" + s) == (9, 13)
    ensures KindOf("renderErrorChain__" + s) == (10, 18)
  {
    FixedThen("renderFallback__", s);
    FixedThen("render__layout__", s);
    FixedThen("renderError__", s);
    FixedThen("renderChain__", s);
    FixedThen("renderErrorChain__", s);
  }

  lemma OtherKinds(s: string)
    ensures KindOf("RouteID" + s) == (1, 7) && KindOf("loadLayout__" + s) == (6, 12)
    ensures KindOf("HasServiceWorker") == (0, 16) && KindOf("init") == (4, 4)
    ensures KindOf("layoutDataAt") == (8, 12) && KindOf("Routes") == (11, 6)
  {
    FixedThen("RouteID", s);
    FixedThen("loadLayout__", s);
  }

  lemma SpelledKind(n: Name)
    requires n.RenderPage? ==> HasPrefix(n.alias, STEM)
    ensures KindOf(Spelled(n)) == Kind(n)
  {
    if n.RenderPage? {
      PageKind(n.alias);
    }
    RenderKinds(Suffix(n));
    OtherKinds(Suffix(n));
  }

  lemma SpelledSuffix(n: Name)
    ensures |Spelled(n)| >= Kind(n).1 && Spelled(n)[Kind(n).1..] == Suffix(n)
  {
    match n
    case RouteID(s) => FixedThen("RouteID", s);
    case RenderPage(s) => FixedThen("render__", s);
    case RenderFallback(s) => FixedThen("renderFallback__", s);
    case RenderLayout(s) => FixedThen("render__layout__", s);
    case LoadLayout(s) => FixedThen("loadLayout__", s);
    case RenderError(s) => FixedThen("renderError__", s);
    case RenderChain(s) => FixedThen("renderChain__", s);
    case RenderErrorChain(s) => FixedThen("renderErrorChain__", s);
    case _ =>
  }

  /** Different names are spelled differently, so a name declared once is an identifier declared once. */
  lemma SpellingIsUnique(m: Name, n: Name)
    requires m.RenderPage? ==> HasPrefix(m.alias, STEM)
    requires n.RenderPage? ==> HasPrefix(n.alias, STEM)
    requires Spelled(m) == Spelled(n)
    ensures m == n
  {
    SpelledKind(m);
    SpelledKind(n);
    SpelledSuffix(m);
    SpelledSuffix(n);
    SameName(m, n);
  }

  lemma SameName(m: Name, n: Name)
    requires Kind(m) == Kind(n) && Suffix(m) == Suffix(n)
    ensures m == n
  {
  }
}
