/** The generated manifest is well scoped: imports against uses, calls against declarations, names declared once. */
module ManifestScope {
  import opened Text
  import opened Aliases
  import opened Manifest
  import opened ManifestEmit

  // --------------------------------------------------- where a declaration comes from

  lemma {:induction false} InForRoutes(k: RouteSection, c: Ctx, rs: seq<Route>, d: Decl)
    ensures d in ForRoutes(k, c, rs) <==> exists r :: r in rs && d in ForRoute(k, c, r)
  {
    if |rs| > 0 {
      var n := |rs| - 1;
      InForRoutes(k, c, rs[..n], d);
      assert rs == rs[..n] + [rs[n]];
    }
  }

  lemma {:induction false} InForPkgs(k: PkgSection, c: Ctx, ps: seq<string>, d: Decl)
    ensures d in ForPkgs(k, c, ps) <==> exists p :: p in ps && d in ForPkg(k, c, p)
  {
    if |ps| > 0 {
      var n := |ps| - 1;
      InForPkgs(k, c, ps[..n], d);
      assert ps == ps[..n] + [ps[n]];
    }
  }

  function Helper(): Decl {
    Decl(LayoutDataAt, {}, {})
  }

  predicate InChain(c: Ctx, r: Route, d: Decl) {
    d in ChainDecl(c, r) || d in ErrorChainDecl(c, r)
  }

  lemma SomeLast(rs: seq<Route>, has: Route -> bool)
    requires |rs| > 0
    ensures (exists r :: r in rs && has(r)) <==> (exists r :: r in rs[..|rs| - 1] && has(r)) || has(rs[|rs| - 1])
  {
    assert rs == rs[..|rs| - 1] + [rs[|rs| - 1]];
    assert rs[|rs| - 1] in rs;
  }

  lemma LastChain(c: Ctx, rs: seq<Route>, d: Decl)
    requires |rs| > 0
    ensures d in Chains(c, rs)
       <==> || d in Chains(c, rs[..|rs| - 1])
            || (d == Helper() && NeedsHelper(c, rs[|rs| - 1]) && !AnyNeedsHelper(c, rs[..|rs| - 1]))
            || InChain(c, rs[|rs| - 1], d)
  {
  }

  lemma {:induction false} InChains(c: Ctx, rs: seq<Route>, d: Decl)
    ensures d in Chains(c, rs) <==> (d == Helper() && AnyNeedsHelper(c, rs)) || exists r :: r in rs && InChain(c, r, d)
  {
    if |rs| > 0 {
      InChains(c, rs[..|rs| - 1], d);
      LastChain(c, rs, d);
      SomeLast(rs, r => InChain(c, r, d));
      SomeLast(rs, r => NeedsHelper(c, r));
    }
  }

  /** Declared on behalf of one route. */
  predicate FromRoute(c: Ctx, r: Route, d: Decl) {
    || d in ForRoute(RouteIDs, c, r)
    || d in ForRoute(RenderAdapters, c, r)
    || d in ForRoute(FallbackAdapters, c, r)
    || InChain(c, r, d)
  }

  /** Declared on behalf of a layout or error package. */
  predicate FromPkg(c: Ctx, d: Decl) {
    || (exists p :: p in c.layouts && d in ForPkg(LayoutAdapters, c, p))
    || (exists p :: p in c.errors && d in ForPkg(ErrorAdapters, c, p))
  }

  /** Declared once for the whole file. */
  predicate FromFile(c: Ctx, rs: seq<Route>, d: Decl) {
    || d == Decl(HasServiceWorker, {}, {})
    || d in FallbackInit(c)
    || (d == Helper() && AnyNeedsHelper(c, rs))
    || d == RoutesDecl(c, rs)
  }

  lemma SomeFromRoute(c: Ctx, rs: seq<Route>, d: Decl)
    ensures (exists r :: r in rs && FromRoute(c, r, d))
       <==> (|| d in ForRoutes(RouteIDs, c, rs)
             || d in ForRoutes(RenderAdapters, c, rs)
             || d in ForRoutes(FallbackAdapters, c, rs)
             || exists r :: r in rs && InChain(c, r, d))
  {
    InForRoutes(RouteIDs, c, rs, d);
    InForRoutes(RenderAdapters, c, rs, d);
    InForRoutes(FallbackAdapters, c, rs, d);
  }

  lemma InDecls(c: Ctx, rs: seq<Route>, d: Decl)
    ensures d in Decls(c, rs) <==> (exists r :: r in rs && FromRoute(c, r, d)) || FromPkg(c, d) || FromFile(c, rs, d)
  {
    SomeFromRoute(c, rs, d);
    InForPkgs(LayoutAdapters, c, c.layouts, d);
    InForPkgs(ErrorAdapters, c, c.errors, d);
    InChains(c, rs, d);
  }

  // ------------------------------------------------------------------ what is used

  lemma {:induction false} InRoutesUses(c: Ctx, rs: seq<Route>, q: Qual)
    ensures q in RoutesUses(c, rs) <==> exists r :: r in rs && q in EntryUses(c, r)
  {
    if |rs| > 0 {
      var n := |rs| - 1;
      InRoutesUses(c, rs[..n], q);
      assert rs == rs[..n] + [rs[n]];
    }
  }

  lemma {:induction false} InRoutesCalls(c: Ctx, rs: seq<Route>, n: Name)
    ensures n in RoutesCalls(c, rs) <==> exists r :: r in rs && n in EntryCalls(c, r)
  {
    if |rs| > 0 {
      var k := |rs| - 1;
      InRoutesCalls(c, rs[..k], n);
      assert rs == rs[..k] + [rs[k]];
    }
  }

  /** One route is why the qualifier is used. */
  predicate RouteUses(c: Ctx, r: Route, q: Qual) {
    match q
    case Fmt => Adapted(c.opts, r) && !IsSvelte(c.opts.routes, r.pattern)
    case Kit => Rendered(c, r) || NeedsHelper(c, r) || c.opts.routes.Some?
    case RenderPkg => Rendered(c, r) || NeedsHelper(c, r)
    case ServerPkg =>
      || (Adapted(c.opts, r) && IsSvelte(c.opts.routes, r.pattern))
      || HasChain(r)
      || (HasErrorChain(c, r) && |Surviving(r)| > 0)
    case FallbackPkg => Sidecared(c, r)
    case CsrfInject => Sidecared(c, r) && CsrfEnabled(c.opts.routes, r.pattern)
    case RouterPkg => HasChain(r)
    case Pkg(a) => a == AliasOf(c, r.pkg) && (Adapted(c.opts, r) || r.hasServer || r.hasPageServer)
  }

  lemma RouteUsesOnly(c: Ctx, r: Route, q: Qual, d: Decl)
    requires FromRoute(c, r, d) && q in d.uses
    ensures RouteUses(c, r, q)
  {
  }

  ghost predicate UsedFor(c: Ctx, r: Route, q: Qual) {
    exists d :: FromRoute(c, r, d) && q in d.uses
  }

  lemma UsedByAdapter(c: Ctx, r: Route, q: Qual)
    requires || (Adapted(c.opts, r) && q in RenderAdapter(c, r)[0].uses)
             || (Sidecared(c, r) && q in FallbackAdapter(c, r)[0].uses)
    ensures UsedFor(c, r, q)
  {
  }

  lemma UsedByChain(c: Ctx, r: Route, q: Qual)
    requires (HasChain(r) && q in ChainDecl(c, r)[0].uses) || (HasErrorChain(c, r) && q in ErrorChainDecl(c, r)[0].uses)
    ensures UsedFor(c, r, q)
  {
  }

  lemma RouteUsesExactly(c: Ctx, r: Route, q: Qual)
    ensures RouteUses(c, r, q) <==> UsedFor(c, r, q) || q in EntryUses(c, r)
  {
    if RouteUses(c, r, q) && q !in EntryUses(c, r) {
      if Adapted(c.opts, r) && q in RenderAdapter(c, r)[0].uses {
        UsedByAdapter(c, r, q);
      } else if Sidecared(c, r) && q in FallbackAdapter(c, r)[0].uses {
        UsedByAdapter(c, r, q);
      } else {
        UsedByChain(c, r, q);
      }
    }
    if UsedFor(c, r, q) {
      var d :| FromRoute(c, r, d) && q in d.uses;
      RouteUsesOnly(c, r, q, d);
    }
  }

  /** A layout or error package is why the qualifier is used. */
  predicate PkgUses(c: Ctx, q: Qual) {
    match q
    case Kit => |c.layouts| > 0 || |c.errors| > 0
    case RenderPkg => |c.layouts| > 0 || |c.errors| > 0
    case ServerPkg => |c.layouts| > 0 || |c.errors| > 0
    case Pkg(a) =>
      || (exists p :: p in c.layouts && AliasOf(c, p) == a)
      || (exists p :: p in c.errors && AliasOf(c, p) == a)
    case _ => false
  }

  lemma LayoutUsesOnly(c: Ctx, p: string, q: Qual, d: Decl)
    requires p in c.layouts && d in ForPkg(LayoutAdapters, c, p) && q in d.uses
    ensures PkgUses(c, q)
  {
  }

  lemma ErrorUsesOnly(c: Ctx, p: string, q: Qual, d: Decl)
    requires p in c.errors && d in ForPkg(ErrorAdapters, c, p) && q in d.uses
    ensures PkgUses(c, q)
  {
  }

  lemma PkgUsesOnly(c: Ctx, q: Qual, d: Decl)
    requires FromPkg(c, d) && q in d.uses
    ensures PkgUses(c, q)
  {
    if p :| p in c.layouts && d in ForPkg(LayoutAdapters, c, p) {
      LayoutUsesOnly(c, p, q, d);
    } else {
      var p :| p in c.errors && d in ForPkg(ErrorAdapters, c, p);
      ErrorUsesOnly(c, p, q, d);
    }
  }

  ghost predicate UsedForPkgs(c: Ctx, q: Qual) {
    exists d :: FromPkg(c, d) && q in d.uses
  }

  lemma UsedByLayout(c: Ctx, p: string, q: Qual)
    requires p in c.layouts && q in {RenderPkg, Kit, ServerPkg, Pkg(AliasOf(c, p))}
    ensures UsedForPkgs(c, q)
  {
    var d := ForPkg(LayoutAdapters, c, p)[0];
    assert d in ForPkg(LayoutAdapters, c, p);
    assert FromPkg(c, d);
  }

  lemma UsedByError(c: Ctx, p: string, q: Qual)
    requires p in c.errors && q in {RenderPkg, Kit, ServerPkg, Pkg(AliasOf(c, p))}
    ensures UsedForPkgs(c, q)
  {
    var d := ForPkg(ErrorAdapters, c, p)[0];
    assert d in ForPkg(ErrorAdapters, c, p);
    assert FromPkg(c, d);
  }

  lemma PkgUsesExactly(c: Ctx, q: Qual)
    ensures PkgUses(c, q) <==> UsedForPkgs(c, q)
  {
    if q.Pkg? {
      if p :| p in c.layouts && AliasOf(c, p) == q.alias {
        UsedByLayout(c, p, q);
      } else if p :| p in c.errors && AliasOf(c, p) == q.alias {
        UsedByError(c, p, q);
      }
    } else if PkgUses(c, q) {
      if |c.layouts| > 0 {
        UsedByLayout(c, c.layouts[0], q);
      } else {
        UsedByError(c, c.errors[0], q);
      }
    }
    if UsedForPkgs(c, q) {
      var d :| FromPkg(c, d) && q in d.uses;
      PkgUsesOnly(c, q, d);
    }
  }

  /** Some declaration of the file uses the qualifier. */
  ghost predicate Used(ds: seq<Decl>, q: Qual) {
    exists d :: d in ds && q in d.uses
  }

  /** Why a qualifier is used, if it is. */
  predicate Reason(c: Ctx, rs: seq<Route>, q: Qual) {
    || (exists r :: r in rs && RouteUses(c, r, q))
    || PkgUses(c, q)
    || (q == FallbackPkg && |c.opts.fallback| > 0)
    || q == RouterPkg
  }

  lemma UseHasReason(c: Ctx, rs: seq<Route>, q: Qual, d: Decl)
    requires d in Decls(c, rs) && q in d.uses
    ensures Reason(c, rs, q)
  {
    InDecls(c, rs, d);
    if FromPkg(c, d) {
      PkgUsesOnly(c, q, d);
    } else if r :| r in rs && FromRoute(c, r, d) {
      RouteUsesOnly(c, r, q, d);
    } else if d == RoutesDecl(c, rs) {
      TableHasReason(c, rs, q);
    }
  }

  lemma TableHasReason(c: Ctx, rs: seq<Route>, q: Qual)
    requires q in RoutesDecl(c, rs).uses
    ensures Reason(c, rs, q)
  {
    InRoutesUses(c, rs, q);
    if r :| r in rs && q in EntryUses(c, r) {
      RouteUsesExactly(c, r, q);
    }
  }

  lemma RouteReasonIsUse(c: Ctx, rs: seq<Route>, q: Qual, r: Route)
    requires r in rs && RouteUses(c, r, q)
    ensures Used(Decls(c, rs), q)
  {
    RouteUsesExactly(c, r, q);
    if UsedFor(c, r, q) {
      var d :| FromRoute(c, r, d) && q in d.uses;
      InDecls(c, rs, d);
    } else {
      InRoutesUses(c, rs, q);
      InDecls(c, rs, RoutesDecl(c, rs));
    }
  }

  lemma OtherReasonIsUse(c: Ctx, rs: seq<Route>, q: Qual)
    requires PkgUses(c, q) || (q == FallbackPkg && |c.opts.fallback| > 0) || q == RouterPkg
    ensures Used(Decls(c, rs), q)
  {
    if PkgUses(c, q) {
      PkgUsesExactly(c, q);
      var d :| FromPkg(c, d) && q in d.uses;
      InDecls(c, rs, d);
    } else if q == RouterPkg {
      InDecls(c, rs, RoutesDecl(c, rs));
    } else {
      InDecls(c, rs, FallbackInit(c)[0]);
    }
  }

  lemma UsedExactly(c: Ctx, rs: seq<Route>, q: Qual)
    ensures Used(Decls(c, rs), q) <==> Reason(c, rs, q)
  {
    if Reason(c, rs, q) {
      if r :| r in rs && RouteUses(c, r, q) {
        RouteReasonIsUse(c, rs, q, r);
      } else {
        OtherReasonIsUse(c, rs, q);
      }
    }
    if d :| d in Decls(c, rs) && q in d.uses {
      UseHasReason(c, rs, q, d);
    }
  }

  // ------------------------------------------------------- facts about the scan

  lemma {:induction false} InEntries(rs: seq<Route>, r: Route)
    ensures r in Entries(rs) <==> r in rs && IsEntry(r)
  {
    if |rs| > 0 {
      var n := |rs| - 1;
      InEntries(rs[..n], r);
      assert rs == rs[..n] + [rs[n]];
    }
  }

  lemma {:induction false} InAddAll(seen: seq<string>, ps: seq<string>, p: string)
    ensures p in AddAll(seen, ps) <==> p in seen || p in ps
  {
    if |ps| > 0 {
      var n := |ps| - 1;
      InAddAll(seen, ps[..n], p);
      assert ps == ps[..n] + [ps[n]];
    }
  }

  /** Every layout of every route was registered. */
  lemma {:induction false} LayoutsRegistered(rs: seq<Route>, r: Route, p: string)
    requires r in rs && p in r.layouts
    ensures p in LayoutPkgs(rs)
  {
    var n := |rs| - 1;
    InAddAll(LayoutPkgs(rs[..n]), rs[n].layouts, p);
    if r != rs[n] {
      LayoutsRegistered(rs[..n], r, p);
    }
  }

  lemma {:induction false} ErrorsRegistered(rs: seq<Route>, r: Route)
    requires r in rs && r.errorPkg != ""
    ensures r.errorPkg in ErrorPkgs(rs)
  {
    var n := |rs| - 1;
    if r != rs[n] {
      ErrorsRegistered(rs[..n], r);
    }
  }

  /** Every entry with an error boundary gets its error chain, and no other. */
  lemma ErrorChainExactly(c: Ctx, rs: seq<Route>, opts: Options, r: Route)
    requires Collected(c, rs, opts) && r in Entries(rs)
    ensures HasErrorChain(c, r) <==> r.errorPkg != ""
  {
    InEntries(rs, r);
    if r.errorPkg != "" {
      ErrorsRegistered(rs, r);
      assert HasPrefix(c.aliases[r.errorPkg], STEM);
    }
  }

  lemma {:induction false} PlannedFrom(rs: seq<Route>, o: RouteOptions, plan: Plan, p: string)
    requires p in Planned(rs, o, plan)
    ensures exists r :: r in rs && r.pattern == p && PlanOf(r, o) == plan
  {
    var n := |rs| - 1;
    assert rs[n] in rs;
    if p in Planned(rs[..n], o, plan) {
      PlannedFrom(rs[..n], o, plan, p);
    }
  }

  lemma {:induction false} PlannedHas(rs: seq<Route>, o: RouteOptions, plan: Plan, r: Route)
    requires r in rs && PlanOf(r, o) == plan
    ensures r.pattern in Planned(rs, o, plan)
  {
    var n := |rs| - 1;
    if r != rs[n] {
      PlannedHas(rs[..n], o, plan, r);
    }
  }

  /** A pattern planned for SSR is a Svelte pattern. */
  lemma SsrIsSvelte(rs: seq<Route>, opts: Options, p: string)
    requires FromPlan(rs, opts) && p in opts.ssr
    ensures IsSvelte(opts.routes, p)
  {
    PlannedFrom(rs, opts.routes, Transpile, p);
  }

  /** A pattern planned for the sidecar is that of a Svelte page route. */
  lemma FallbackIsPage(rs: seq<Route>, opts: Options, p: string) returns (r: Route)
    requires FromPlan(rs, opts) && p in opts.fallback
    ensures r in Entries(rs) && r.hasPage && r.pattern == p && IsSvelte(opts.routes, p)
  {
    PlannedFrom(rs, opts.routes, Sidecar, p);
    r :| r in rs && r.pattern == p && PlanOf(r, opts.routes) == Sidecar;
    InEntries(rs, r);
  }

  // ------------------------------------------------------------ imports and uses

  ghost predicate Scanned(c: Ctx, rs: seq<Route>, opts: Options) {
    Collected(c, rs, opts) && FromPlan(rs, opts)
  }

  predicate IsImported(c: Ctx, es: seq<Route>, q: Qual) {
    ImportsFixed(c, es, q) || (q.Pkg? && ImportsPkg(c, es, q.alias))
  }

  /** A chain needs a layout or an error page, and those bring the imports of their adapters. */
  lemma ChainsHaveChrome(c: Ctx, rs: seq<Route>, opts: Options, r: Route)
    requires Scanned(c, rs, opts) && r in Entries(rs) && NeedsHelper(c, r)
    ensures |c.layouts| > 0 || |c.errors| > 0
    ensures HasChain(r) || |Surviving(r)| > 0 ==> |c.layouts| > 0
  {
    InEntries(rs, r);
    if |r.layouts| > 0 {
      LayoutsRegistered(rs, r, r.layouts[0]);
    }
  }

  /** A route's package is imported exactly when the route refers to it. */
  lemma EntryImport(c: Ctx, rs: seq<Route>, opts: Options, r: Route)
    requires Scanned(c, rs, opts) && r in Entries(rs)
    ensures WorthImporting(c.opts, r) <==> Adapted(c.opts, r) || r.hasServer || r.hasPageServer
  {
    InEntries(rs, r);
    if r.pattern in opts.ssr {
      SsrIsSvelte(rs, opts, r.pattern);
    }
  }

  lemma PkgImport(c: Ctx, rs: seq<Route>, opts: Options, a: string)
    requires Scanned(c, rs, opts)
    ensures ImportsPkg(c, Entries(rs), a) <==> Reason(c, Entries(rs), Pkg(a))
  {
    var es := Entries(rs);
    if r :| r in es && WorthImporting(c.opts, r) && AliasOf(c, r.pkg) == a {
      EntryImport(c, rs, opts, r);
      assert RouteUses(c, r, Pkg(a));
    }
    if r :| r in es && RouteUses(c, r, Pkg(a)) {
      EntryImport(c, rs, opts, r);
      assert WorthImporting(c.opts, r);
    }
  }

  lemma CsrfImport(c: Ctx, rs: seq<Route>, opts: Options)
    requires Scanned(c, rs, opts)
    ensures ImportsFixed(c, Entries(rs), CsrfInject) <==> Reason(c, Entries(rs), CsrfInject)
  {
    if p :| p in opts.fallback && CsrfEnabled(opts.routes, p) {
      var r := FallbackIsPage(rs, opts, p);
      assert RouteUses(c, r, CsrfInject);
    }
  }

  lemma FmtImport(c: Ctx, rs: seq<Route>)
    ensures ImportsFixed(c, Entries(rs), Fmt) <==> Reason(c, Entries(rs), Fmt)
  {
  }

  lemma RenderImport(c: Ctx, rs: seq<Route>, opts: Options)
    requires Scanned(c, rs, opts)
    ensures ImportsFixed(c, Entries(rs), RenderPkg) <==> Reason(c, Entries(rs), RenderPkg)
  {
    if r :| r in Entries(rs) && Rendered(c, r) {
      assert RouteUses(c, r, RenderPkg);
    }
    if r :| r in Entries(rs) && NeedsHelper(c, r) {
      ChainsHaveChrome(c, rs, opts, r);
    }
  }

  lemma ServerImport(c: Ctx, rs: seq<Route>, opts: Options)
    requires Scanned(c, rs, opts)
    ensures ImportsFixed(c, Entries(rs), ServerPkg) <==> Reason(c, Entries(rs), ServerPkg)
  {
    if r :| r in Entries(rs) && r.hasPage && IsSvelte(c.opts.routes, r.pattern) && r.pattern in c.opts.ssr {
      assert RouteUses(c, r, ServerPkg);
    }
    if r :| r in Entries(rs) && NeedsHelper(c, r) {
      ChainsHaveChrome(c, rs, opts, r);
    }
  }

  /** When the file has anything to say about kit: options given, or a page, a layout or an error page. */
  predicate KitHasUse(rs: seq<Route>, opts: Options) {
    || opts.routes.Some?
    || |Entries(rs)| == 0
    || (exists r :: r in Entries(rs) && r.hasPage)
    || |LayoutPkgs(rs)| > 0
    || |ErrorPkgs(rs)| > 0
  }

  lemma KitImport(c: Ctx, rs: seq<Route>, opts: Options)
    requires Scanned(c, rs, opts)
    ensures (ImportsFixed(c, Entries(rs), Kit) <==> Reason(c, Entries(rs), Kit)) <==> KitHasUse(rs, opts)
  {
    var es := Entries(rs);
    if r :| r in es && NeedsHelper(c, r) {
      ChainsHaveChrome(c, rs, opts, r);
    }
    if opts.routes.Some? {
      if |es| > 0 {
        assert es[0] in es && RouteUses(c, es[0], Kit);
      }
    } else {
      assert forall r :: r in es && r.hasPage ==> Adapted(c.opts, r);
      assert forall r :: Rendered(c, r) ==> r.hasPage;
      if r :| r in es && r.hasPage {
        assert RouteUses(c, r, Kit);
      }
    }
  }

  /** The imports are exactly the qualifiers used. */
  ghost predicate ImportsMatch(out: Output) {
    NoRepeat(out.imports) && forall q :: q in out.imports <==> Used(out.decls, q)
  }

  lemma ImportMatches(c: Ctx, rs: seq<Route>, opts: Options, q: Qual)
    requires Scanned(c, rs, opts) && q != Kit
    ensures IsImported(c, Entries(rs), q) <==> Reason(c, Entries(rs), q)
  {
    match q
    case Fmt => FmtImport(c, rs);
    case RenderPkg => RenderImport(c, rs, opts);
    case ServerPkg => ServerImport(c, rs, opts);
    case FallbackPkg =>
    case CsrfInject => CsrfImport(c, rs, opts);
    case RouterPkg =>
    case Pkg(a) => PkgImport(c, rs, opts, a);
  }

  lemma ImportsMatchExactly(c: Ctx, rs: seq<Route>, opts: Options, out: Output)
    requires Scanned(c, rs, opts) && Emitted(c, Entries(rs), out)
    ensures ImportsMatch(out) <==> KitHasUse(rs, opts)
  {
    var es := Entries(rs);
    forall q
      ensures q != Kit ==> (q in out.imports <==> Used(out.decls, q))
    {
      UsedExactly(c, es, q);
      if q != Kit {
        ImportMatches(c, rs, opts, q);
      }
    }
    KitImport(c, rs, opts);
    UsedExactly(c, es, Kit);
  }
}
