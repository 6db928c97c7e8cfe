/** GenerateManifest itself: the loops that collect aliases, set the import flags and write the declarations. */
module ManifestEmit {
  import opened Text
  import opened Aliases
  import opened Manifest

  // ------------------------------------------------------------------ collecting

  predicate IsEntry(r: Route) {
    r.hasPage || r.hasServer
  }

  function Entries(rs: seq<Route>): seq<Route> {
    if |rs| == 0 then []
    else
      var n := |rs| - 1;
      Entries(rs[..n]) + (if IsEntry(rs[n]) then [rs[n]] else [])
  }

  function AddNew(seen: seq<string>, p: string): seq<string> {
    if p in seen then seen else seen + [p]
  }

  function AddAll(seen: seq<string>, ps: seq<string>): seq<string> {
    if |ps| == 0 then seen else AddNew(AddAll(seen, ps[..|ps| - 1]), ps[|ps| - 1])
  }

  /** The layout packages of all routes, each once. */
  function LayoutPkgs(rs: seq<Route>): seq<string> {
    if |rs| == 0 then [] else AddAll(LayoutPkgs(rs[..|rs| - 1]), rs[|rs| - 1].layouts)
  }

  /** The layouts of a route that have a server file, among its first k. */
  function ServedOf(r: Route, k: nat): set<string>
    requires k <= |r.layouts|
  {
    if k == 0 then {}
    else ServedOf(r, k - 1) + (if k - 1 < |r.layoutServers| && r.layoutServers[k - 1] then {r.layouts[k - 1]} else {})
  }

  function ServedPkgs(rs: seq<Route>): set<string> {
    if |rs| == 0 then {} else ServedPkgs(rs[..|rs| - 1]) + ServedOf(rs[|rs| - 1], |rs[|rs| - 1].layouts|)
  }

  /** The error packages of all routes, each once. */
  function ErrorPkgs(rs: seq<Route>): seq<string> {
    if |rs| == 0 then []
    else
      var before := ErrorPkgs(rs[..|rs| - 1]);
      if rs[|rs| - 1].errorPkg == "" then before else AddNew(before, rs[|rs| - 1].errorPkg)
  }

  /** Every package of these has an alias. */
  ghost predicate Named(aliases: map<string, string>, ps: seq<string>) {
    forall p :: p in ps ==> p in aliases
  }

  ghost predicate NamedRoutes(aliases: map<string, string>, rs: seq<Route>) {
    forall r :: r in rs ==> r.pkg in aliases
  }

  lemma NamedStays(a: map<string, string>, b: map<string, string>, ps: seq<string>)
    requires Named(a, ps) && Extends(b, a)
    ensures Named(b, ps)
  {
  }

  method CollectEntries(t: AliasTable, rs: seq<Route>) returns (es: seq<Route>)
    requires t.Valid()
    modifies t
    ensures t.Valid() && Extends(t.aliasByPkg, old(t.aliasByPkg))
    ensures es == Entries(rs) && NamedRoutes(t.aliasByPkg, es)
  {
    es := [];
    for i := 0 to |rs|
      invariant t.Valid() && Extends(t.aliasByPkg, old(t.aliasByPkg))
      invariant es == Entries(rs[..i]) && NamedRoutes(t.aliasByPkg, es)
    {
      assert rs[..i + 1][..i] == rs[..i];
      if !rs[i].hasPage && !rs[i].hasServer {
        continue;
      }
      var alias := t.UniqueAlias(rs[i].pkg);
      es := es + [rs[i]];
    }
    assert rs[..|rs|] == rs;
  }

  /** The first i layouts of a route have been collected. */
  ghost predicate CollectedUpTo(r: Route, seen: seq<string>, served: set<string>, i: nat,
                                seen': seq<string>, served': set<string>) {
    i <= |r.layouts| && seen' == AddAll(seen, r.layouts[..i]) && served' == served + ServedOf(r, i)
  }

  lemma CollectedNext(r: Route, seen: seq<string>, served: set<string>, i: nat, seen': seq<string>,
                      served': set<string>)
    requires CollectedUpTo(r, seen, served, i, seen', served') && i < |r.layouts|
    ensures CollectedUpTo(r, seen, served, i + 1, AddNew(seen', r.layouts[i]),
                          served' + if i < |r.layoutServers| && r.layoutServers[i] then {r.layouts[i]} else {})
  {
    assert r.layouts[..i + 1][..i] == r.layouts[..i];
  }

  /** The inner loop of the layout collection: one route's layouts. */
  method CollectRouteLayouts(t: AliasTable, r: Route, seen: seq<string>, served: set<string>)
    returns (seen': seq<string>, served': set<string>)
    requires t.Valid() && Named(t.aliasByPkg, seen)
    modifies t
    ensures t.Valid() && Extends(t.aliasByPkg, old(t.aliasByPkg)) && Named(t.aliasByPkg, seen')
    ensures seen' == AddAll(seen, r.layouts) && served' == served + ServedOf(r, |r.layouts|)
  {
    seen', served' := seen, served;
    for i := 0 to |r.layouts|
      invariant t.Valid() && Extends(t.aliasByPkg, old(t.aliasByPkg)) && Named(t.aliasByPkg, seen')
      invariant CollectedUpTo(r, seen, served, i, seen', served')
    {
      CollectedNext(r, seen, served, i, seen', served');
      served' := served' + if i < |r.layoutServers| && r.layoutServers[i] then {r.layouts[i]} else {};
      seen' := CollectLayout(t, r.layouts[i], seen');
    }
    assert r.layouts[..|r.layouts|] == r.layouts;
  }

  /** One layout: nothing when it was met before, else an alias. */
  method CollectLayout(t: AliasTable, p: string, seen: seq<string>) returns (seen': seq<string>)
    requires t.Valid() && Named(t.aliasByPkg, seen)
    modifies t
    ensures t.Valid() && Extends(t.aliasByPkg, old(t.aliasByPkg)) && Named(t.aliasByPkg, seen')
    ensures seen' == AddNew(seen, p)
  {
    if p in seen {
      return seen;
    }
    var alias := t.UniqueAlias(p);
    seen' := seen + [p];
  }

  method CollectLayouts(t: AliasTable, rs: seq<Route>) returns (layouts: seq<string>, served: set<string>)
    requires t.Valid()
    modifies t
    ensures t.Valid() && Extends(t.aliasByPkg, old(t.aliasByPkg)) && Named(t.aliasByPkg, layouts)
    ensures layouts == LayoutPkgs(rs) && served == ServedPkgs(rs)
  {
    layouts, served := [], {};
    for i := 0 to |rs|
      invariant t.Valid() && Extends(t.aliasByPkg, old(t.aliasByPkg)) && Named(t.aliasByPkg, layouts)
      invariant layouts == LayoutPkgs(rs[..i]) && served == ServedPkgs(rs[..i])
    {
      assert rs[..i + 1][..i] == rs[..i];
      layouts, served := CollectRouteLayouts(t, rs[i], layouts, served);
    }
    assert rs[..|rs|] == rs;
  }

  method CollectErrors(t: AliasTable, rs: seq<Route>) returns (errors: seq<string>)
    requires t.Valid()
    modifies t
    ensures t.Valid() && Extends(t.aliasByPkg, old(t.aliasByPkg)) && Named(t.aliasByPkg, errors)
    ensures errors == ErrorPkgs(rs)
  {
    errors := [];
    for i := 0 to |rs|
      invariant t.Valid() && Extends(t.aliasByPkg, old(t.aliasByPkg)) && Named(t.aliasByPkg, errors)
      invariant errors == ErrorPkgs(rs[..i])
    {
      assert rs[..i + 1][..i] == rs[..i];
      var p := rs[i].errorPkg;
      if p == "" || p in errors {
        continue;
      }
      var alias := t.UniqueAlias(p);
      errors := errors + [p];
    }
    assert rs[..|rs|] == rs;
  }

  /** What collecting leaves behind for a scan. */
  ghost predicate Collected(c: Ctx, rs: seq<Route>, opts: Options) {
    && c.opts == opts
    && Distinct(c.aliases)
    && c.layouts == LayoutPkgs(rs) && c.served == ServedPkgs(rs) && c.errors == ErrorPkgs(rs)
    && NamedRoutes(c.aliases, Entries(rs)) && Named(c.aliases, c.layouts) && Named(c.aliases, c.errors)
  }

  method Collect(rs: seq<Route>, opts: Options) returns (c: Ctx, es: seq<Route>)
    ensures Collected(c, rs, opts) && es == Entries(rs)
  {
    var t := new AliasTable();
    es := CollectEntries(t, rs);
    ghost var first := t.aliasByPkg;
    var layouts, served := CollectLayouts(t, rs);
    ghost var second := t.aliasByPkg;
    var errors := CollectErrors(t, rs);
    NamedStays(second, t.aliasByPkg, layouts);
    assert NamedRoutes(t.aliasByPkg, es) by {
      assert NamedRoutes(first, es) && Extends(second, first) && Extends(t.aliasByPkg, second);
    }
    c := Ctx(opts, t.aliasByPkg, layouts, served, errors);
  }

  // ------------------------------------------------------------------- the flags

  /** Some page route is not Svelte. */
  predicate UsesFmt(c: Ctx, es: seq<Route>) {
    exists e :: e in es && e.hasPage && !IsSvelte(c.opts.routes, e.pattern)
  }

  /** Some page route gets a render adapter or goes through the sidecar. */
  predicate HasPage(c: Ctx, es: seq<Route>) {
    exists e :: e in es && Rendered(c, e)
  }

  predicate Rendered(c: Ctx, r: Route) {
    Adapted(c.opts, r) || Sidecared(c, r)
  }

  /** Some Svelte page has an SSR emit. */
  predicate HasSvelte(c: Ctx, es: seq<Route>) {
    exists e :: e in es && e.hasPage && IsSvelte(c.opts.routes, e.pattern) && e.pattern in c.opts.ssr
  }

  predicate HasFallbackCsrf(c: Ctx) {
    exists p :: p in c.opts.fallback && CsrfEnabled(c.opts.routes, p)
  }

  method PageFlags(c: Ctx, es: seq<Route>) returns (hasPage: bool, hasSvelte: bool)
    ensures hasPage == HasPage(c, es) && hasSvelte == HasSvelte(c, es)
  {
    hasPage, hasSvelte := false, false;
    for i := 0 to |es|
      invariant hasPage == HasPage(c, es[..i]) && hasSvelte == HasSvelte(c, es[..i])
    {
      assert es[..i + 1] == es[..i] + [es[i]] && es[i] in es[..i + 1];
      if !es[i].hasPage {
        continue;
      }
      var svelte, ssr := IsSvelte(c.opts.routes, es[i].pattern), es[i].pattern in c.opts.ssr;
      if svelte && ssr {
        hasPage, hasSvelte := true, true;
      } else if svelte && es[i].pattern in c.opts.fallback {
        hasPage := true;
      } else if !svelte {
        hasPage := true;
      }
    }
    assert es[..|es|] == es;
  }

  method FmtFlag(c: Ctx, es: seq<Route>) returns (usesFmt: bool)
    ensures usesFmt == UsesFmt(c, es)
  {
    usesFmt := false;
    for i := 0 to |es|
      invariant usesFmt == UsesFmt(c, es[..i])
    {
      assert es[..i + 1] == es[..i] + [es[i]];
      if es[i].hasPage && !IsSvelte(c.opts.routes, es[i].pattern) {
        usesFmt := true;
      }
    }
    assert es[..|es|] == es;
  }

  method CsrfFlag(c: Ctx) returns (csrf: bool)
    ensures csrf == HasFallbackCsrf(c)
  {
    csrf := false;
    for i := 0 to |c.opts.fallback|
      invariant csrf == exists p :: p in c.opts.fallback[..i] && CsrfEnabled(c.opts.routes, p)
    {
      assert c.opts.fallback[..i + 1] == c.opts.fallback[..i] + [c.opts.fallback[i]];
      if CsrfEnabled(c.opts.routes, c.opts.fallback[i]) {
        csrf := true;
      }
    }
    assert c.opts.fallback[..|c.opts.fallback|] == c.opts.fallback;
  }

  // ----------------------------------------------------------------- the imports

  /** Whether one of the framework's packages is imported. */
  predicate ImportsFixed(c: Ctx, es: seq<Route>, q: Qual) {
    var chrome := |c.layouts| > 0 || |c.errors| > 0;
    match q
    case Fmt => UsesFmt(c, es)
    case Kit => HasPage(c, es) || chrome || |es| > 0
    case RenderPkg => HasPage(c, es) || chrome
    case ServerPkg => HasSvelte(c, es) || chrome
    case FallbackPkg => |c.opts.fallback| > 0
    case CsrfInject => |c.opts.fallback| > 0 && HasFallbackCsrf(c)
    case RouterPkg => true
    case Pkg(_) => false
  }

  /** Whether a route's own package is worth importing: a Svelte page alone contributes no Go symbols. */
  predicate WorthImporting(opts: Options, r: Route) {
    !(IsSvelte(opts.routes, r.pattern) && !r.hasPageServer && !r.hasServer && r.pattern !in opts.ssr)
  }

  predicate ImportsPkg(c: Ctx, es: seq<Route>, a: string) {
    || (exists e :: e in es && WorthImporting(c.opts, e) && AliasOf(c, e.pkg) == a)
    || (exists p :: p in c.layouts && AliasOf(c, p) == a)
    || (exists p :: p in c.errors && AliasOf(c, p) == a)
  }

  method ImportEntries(c: Ctx, es: seq<Route>) returns (out: seq<string>)
    ensures NoRepeat(out)
    ensures forall a :: a in out <==> exists e :: e in es && WorthImporting(c.opts, e) && AliasOf(c, e.pkg) == a
  {
    out := [];
    for i := 0 to |es|
      invariant NoRepeat(out)
      invariant forall a ::
        a in out <==> exists e :: e in es[..i] && WorthImporting(c.opts, e) && AliasOf(c, e.pkg) == a
    {
      assert es[..i + 1] == es[..i] + [es[i]];
      var a := AliasOf(c, es[i].pkg);
      if a in out || !WorthImporting(c.opts, es[i]) {
        continue;
      }
      out := out + [a];
    }
    assert es[..|es|] == es;
  }

  /** The same loop for layouts and for error pages. */
  method ImportAll(c: Ctx, ps: seq<string>, before: seq<string>) returns (out: seq<string>)
    requires NoRepeat(before)
    ensures NoRepeat(out)
    ensures forall a :: a in out <==> a in before || exists p :: p in ps && AliasOf(c, p) == a
  {
    out := before;
    for i := 0 to |ps|
      invariant NoRepeat(out)
      invariant forall a :: a in out <==> a in before || exists p :: p in ps[..i] && AliasOf(c, p) == a
    {
      assert ps[..i + 1] == ps[..i] + [ps[i]];
      var a := AliasOf(c, ps[i]);
      if a in out {
        continue;
      }
      out := out + [a];
    }
    assert ps[..|ps|] == ps;
  }

  method ImportPackages(c: Ctx, es: seq<Route>) returns (out: seq<string>)
    ensures NoRepeat(out) && forall a :: a in out <==> ImportsPkg(c, es, a)
  {
    out := ImportEntries(c, es);
    out := ImportAll(c, c.layouts, out);
    out := ImportAll(c, c.errors, out);
  }

  // ------------------------------------------------------------ the declarations

  /** emitRouteIDConsts: refuses two routes with one identifier. */
  predicate Collides(es: seq<Route>) {
    exists i, j :: 0 <= i < j < |es| && es[i].ident == es[j].ident
  }

  method CheckRouteIDs(es: seq<Route>) returns (ok: bool)
    ensures ok <==> !Collides(es)
  {
    var seen: set<string> := {};
    for i := 0 to |es|
      invariant forall k :: 0 <= k < i ==> es[k].ident in seen
      invariant forall x :: x in seen ==> exists k :: 0 <= k < i && es[k].ident == x
      invariant !Collides(es[..i])
    {
      if es[i].ident in seen {
        return false;
      }
      seen := seen + {es[i].ident};
    }
    assert es[..|es|] == es;
    return true;
  }

  method EmitRouteIDs(c: Ctx, es: seq<Route>) returns (out: seq<Decl>)
    ensures out == ForRoutes(RouteIDs, c, es)
  {
    out := [];
    for i := 0 to |es|
      invariant out == ForRoutes(RouteIDs, c, es[..i])
    {
      assert es[..i + 1][..i] == es[..i];
      out := out + [Decl(RouteID(es[i].ident), {}, {})];
    }
    assert es[..|es|] == es;
  }

  /** emitRenderAdapters. */
  method EmitRenderAdapters(c: Ctx, es: seq<Route>) returns (out: seq<Decl>)
    ensures out == ForRoutes(RenderAdapters, c, es)
  {
    out := [];
    for i := 0 to |es|
      invariant out == ForRoutes(RenderAdapters, c, es[..i])
    {
      assert es[..i + 1][..i] == es[..i];
      if !es[i].hasPage {
        continue;
      }
      var svelte, a := IsSvelte(c.opts.routes, es[i].pattern), AliasOf(c, es[i].pkg);
      if svelte && es[i].pattern !in c.opts.ssr {
        continue;
      }
      if svelte {
        out := out + [Decl(RenderPage(a), {RenderPkg, Kit, Pkg(a), ServerPkg}, {})];
        continue;
      }
      out := out + [Decl(RenderPage(a), {RenderPkg, Kit, Pkg(a), Fmt}, {})];
    }
    assert es[..|es|] == es;
  }

  /** emitFallbackAdapters. */
  method EmitFallbackAdapters(c: Ctx, es: seq<Route>) returns (out: seq<Decl>)
    ensures out == ForRoutes(FallbackAdapters, c, es)
  {
    out := [];
    for i := 0 to |es|
      invariant out == ForRoutes(FallbackAdapters, c, es[..i])
    {
      assert es[..i + 1][..i] == es[..i];
      if !es[i].hasPage || !IsSvelte(c.opts.routes, es[i].pattern) || es[i].pattern !in c.opts.fallback {
        continue;
      }
      var uses := {RenderPkg, Kit, FallbackPkg};
      if CsrfEnabled(c.opts.routes, es[i].pattern) {
        uses := uses + {CsrfInject};
      }
      assert uses == {RenderPkg, Kit, FallbackPkg}
                     + (if CsrfEnabled(c.opts.routes, es[i].pattern) then {CsrfInject} else {});
      out := out + [Decl(RenderFallback(es[i].ident), uses, {})];
    }
    assert es[..|es|] == es;
  }

  /** emitLayoutAdapters. */
  method EmitLayoutAdapters(c: Ctx, ps: seq<string>) returns (out: seq<Decl>)
    ensures out == ForPkgs(LayoutAdapters, c, ps)
  {
    out := [];
    for i := 0 to |ps|
      invariant out == ForPkgs(LayoutAdapters, c, ps[..i])
    {
      assert ps[..i + 1][..i] == ps[..i];
      var a := AliasOf(c, ps[i]);
      var adapters := [Decl(RenderLayout(a), {RenderPkg, Kit, ServerPkg, Pkg(a)}, {})];
      if ps[i] in c.served {
        adapters := adapters + [Decl(LoadLayout(a), {Kit, Pkg(a)}, {})];
      }
      out := out + adapters;
    }
    assert ps[..|ps|] == ps;
  }

  /** emitErrorAdapters. */
  method EmitErrorAdapters(c: Ctx, ps: seq<string>) returns (out: seq<Decl>)
    ensures out == ForPkgs(ErrorAdapters, c, ps)
  {
    out := [];
    for i := 0 to |ps|
      invariant out == ForPkgs(ErrorAdapters, c, ps[..i])
    {
      assert ps[..i + 1][..i] == ps[..i];
      var a := AliasOf(c, ps[i]);
      out := out + [Decl(RenderError(a), {RenderPkg, Kit, ServerPkg, Pkg(a)}, {})];
    }
    assert ps[..|ps|] == ps;
  }

  /** emitRouteRenderChains. */
  method EmitChains(c: Ctx, es: seq<Route>) returns (out: seq<Decl>)
    ensures out == Chains(c, es)
  {
    out := [];
    var emitted := false;
    for i := 0 to |es|
      invariant emitted == AnyNeedsHelper(c, es[..i])
      invariant out == Chains(c, es[..i])
    {
      assert es[..i + 1][..i] == es[..i] && es[..i + 1] == es[..i] + [es[i]];
      var helper: seq<Decl> := [];
      if !emitted && NeedsHelper(c, es[i]) {
        helper := [Decl(LayoutDataAt, {}, {})];
        emitted := true;
      }
      out := out + helper + ChainDecl(c, es[i]) + ErrorChainDecl(c, es[i]);
    }
    assert es[..|es|] == es;
  }

  method AnyServer(c: Ctx, ps: seq<string>) returns (any: bool)
    ensures any == AnyServed(c, ps)
  {
    any := false;
    for i := 0 to |ps|
      invariant any == AnyServed(c, ps[..i])
    {
      assert ps[..i + 1] == ps[..i] + [ps[i]];
      if ps[i] in c.layouts && ps[i] in c.served {
        any := true;
      }
    }
    assert ps[..|ps|] == ps;
  }

  /** LayoutLoaders: positions of layouts without a server file are nil. */
  method EmitLoaders(c: Ctx, ps: seq<string>) returns (loaders: seq<Option<Name>>)
    ensures loaders == LoaderList(c, ps)
  {
    loaders := [];
    for i := 0 to |ps|
      invariant loaders == LoaderList(c, ps[..i])
    {
      assert ps[..i + 1][..i] == ps[..i];
      if ps[i] !in c.layouts {
        continue;
      }
      if ps[i] in c.served {
        loaders := loaders + [Some(LoadLayout(AliasOf(c, ps[i])))];
      } else {
        loaders := loaders + [None];
      }
    }
    assert ps[..|ps|] == ps;
  }

  /** emitRouteEntry. */
  method EmitRouteEntry(c: Ctx, r: Route) returns (e: TableEntry)
    ensures e == EntryOf(c, r)
  {
    var a := AliasOf(c, r.pkg);
    e := TableEntry(r.pattern, None, None, None, None, [], c.opts.routes.Some?, None);
    if r.hasServer {
      e := e.(server := Some(a));
    } else if r.hasPage {
      if r.pattern in c.opts.ssr {
        e := e.(page := Some(RenderPage(a)));
      } else if r.pattern in c.opts.fallback {
        e := e.(page := Some(RenderFallback(r.ident)));
      }
    }
    if r.hasPageServer {
      e := e.(load := Some(a));
    }
    if |r.layouts| > 0 {
      if r.hasPage {
        e := e.(chain := Some(RenderChain(r.ident)));
      }
      var anyServer := AnyServer(c, r.layouts);
      if anyServer {
        var loaders := EmitLoaders(c, r.layouts);
        e := e.(loaders := loaders);
      }
    }
    if r.errorPkg != "" && r.errorPkg in c.errors && AliasOf(c, r.errorPkg) != "" {
      e := e.(renderError := Some(RenderErrorChain(r.ident)));
    }
  }

  lemma {:induction false} InLoaderList(c: Ctx, ps: seq<string>, o: Option<Name>)
    ensures o in LoaderList(c, ps)
       <==> exists p :: p in ps && p in c.layouts
                        && o == if p in c.served then Some(LoadLayout(AliasOf(c, p))) else None
  {
    if |ps| > 0 {
      var n := |ps| - 1;
      InLoaderList(c, ps[..n], o);
      assert ps == ps[..n] + [ps[n]];
    }
  }

  lemma LoaderNames(c: Ctx, r: Route)
    ensures (set o | o in Loaders(c, r) && o.Some? :: o.value) == LoaderCalls(c, r)
  {
    forall n
      ensures Some(n) in Loaders(c, r) <==> n in LoaderCalls(c, r)
    {
      InLoaderList(c, r.layouts, Some(n));
    }
  }

  /** What the entry names and uses, as a set. */
  lemma EntryNames(c: Ctx, r: Route)
    ensures NamesIn(EntryOf(c, r)) == EntryCalls(c, r) && QualsIn(EntryOf(c, r)) == EntryUses(c, r)
  {
    LoaderNames(c, r);
  }

  /** Routes(): one table entry after the other. */
  method EmitRoutes(c: Ctx, es: seq<Route>) returns (table: seq<TableEntry>, d: Decl)
    ensures table == Table(c, es) && d == RoutesDecl(c, es)
  {
    table := [];
    var uses, calls := {}, {};
    for i := 0 to |es|
      invariant table == Table(c, es[..i])
      invariant uses == RoutesUses(c, es[..i]) && calls == RoutesCalls(c, es[..i])
    {
      assert es[..i + 1][..i] == es[..i];
      var e := EmitRouteEntry(c, es[i]);
      EntryNames(c, es[i]);
      table, uses, calls := table + [e], uses + QualsIn(e), calls + NamesIn(e);
    }
    assert es[..|es|] == es;
    d := Decl(Routes, {RouterPkg} + uses, calls);
  }

  method EmitDecls(c: Ctx, es: seq<Route>) returns (out: seq<Decl>, table: seq<TableEntry>)
    ensures out == Decls(c, es) && table == Table(c, es)
  {
    var ids := EmitRouteIDs(c, es);
    var pages := EmitRenderAdapters(c, es);
    var sidecars := EmitFallbackAdapters(c, es);
    var layouts := EmitLayoutAdapters(c, c.layouts);
    var errors := EmitErrorAdapters(c, c.errors);
    var chains := EmitChains(c, es);
    var routes;
    table, routes := EmitRoutes(c, es);
    out := [Decl(HasServiceWorker, {}, {})] + ids + pages + sidecars + FallbackInit(c) + layouts + errors
           + chains + [routes];
  }

  // ------------------------------------------------------------- the whole thing

  /** The framework imports, then one import for each package worth importing. */
  ghost predicate Imported(c: Ctx, es: seq<Route>, imports: seq<Qual>) {
    && (forall q :: q in imports <==> ImportsFixed(c, es, q) || (q.Pkg? && ImportsPkg(c, es, q.alias)))
    && NoRepeat(imports)
  }

  ghost predicate Emitted(c: Ctx, es: seq<Route>, out: Output) {
    Imported(c, es, out.imports) && out.decls == Decls(c, es) && out.table == Table(c, es)
  }

  /** One line of the import block, behind its flag. */
  method AddImport(list: seq<Qual>, b: bool, q: Qual) returns (list': seq<Qual>)
    requires NoRepeat(list) && q !in list
    ensures NoRepeat(list') && forall x :: x in list' <==> x in list || (b && x == q)
  {
    list' := if b then list + [q] else list;
  }

  /** Which imports a set of flags stands for. */
  predicate Flagged(q: Qual, fmt: bool, kit: bool, render: bool, server: bool, fallback: bool, csrf: bool) {
    match q
    case Fmt => fmt
    case Kit => kit
    case RenderPkg => render
    case ServerPkg => server
    case FallbackPkg => fallback
    case CsrfInject => csrf
    case RouterPkg => true
    case Pkg(_) => false
  }

  /** The import block, flag by flag. */
  method WriteImports(fmt: bool, kit: bool, render: bool, server: bool, fallback: bool, csrf: bool)
    returns (out: seq<Qual>)
    ensures NoRepeat(out) && forall q :: q in out <==> Flagged(q, fmt, kit, render, server, fallback, csrf)
  {
    out := AddImport([], fmt, Fmt);
    out := AddImport(out, kit, Kit);
    out := AddImport(out, render, RenderPkg);
    out := AddImport(out, server, ServerPkg);
    out := AddImport(out, fallback, FallbackPkg);
    out := AddImport(out, csrf, CsrfInject);
    out := AddImport(out, true, RouterPkg);
  }

  /** The framework imports. */
  method FixedImports(c: Ctx, es: seq<Route>) returns (out: seq<Qual>)
    ensures NoRepeat(out) && forall q :: q in out <==> ImportsFixed(c, es, q)
  {
    var hasPage, hasSvelte := PageFlags(c, es);
    var usesFmt := FmtFlag(c, es);
    var csrf := CsrfFlag(c);
    var hasFallback, chrome := |c.opts.fallback| > 0, |c.layouts| > 0 || |c.errors| > 0;
    out := WriteImports(usesFmt, hasPage || chrome || |es| > 0, hasPage || chrome, hasSvelte || chrome, hasFallback,
                        hasFallback && csrf);
  }

  method AddPackages(before: seq<Qual>, aliases: seq<string>) returns (out: seq<Qual>)
    requires NoRepeat(before) && NoRepeat(aliases) && forall q :: q in before ==> !q.Pkg?
    ensures NoRepeat(out) && forall q :: q in out <==> q in before || (q.Pkg? && q.alias in aliases)
  {
    out := before;
    for i := 0 to |aliases|
      invariant NoRepeat(out)
      invariant forall q :: q in out <==> q in before || (q.Pkg? && q.alias in aliases[..i])
    {
      assert aliases[..i + 1] == aliases[..i] + [aliases[i]];
      assert aliases[i] !in aliases[..i];
      out := out + [Pkg(aliases[i])];
    }
    assert aliases[..|aliases|] == aliases;
  }

  method EmitImports(c: Ctx, es: seq<Route>) returns (out: seq<Qual>)
    ensures Imported(c, es, out)
  {
    var fixed := FixedImports(c, es);
    var aliases := ImportPackages(c, es);
    out := AddPackages(fixed, aliases);
  }
}
