/**
 The route table of the generated manifest, in terms of the scan: which fields each
 entry has, and which functions Routes() names.
 */
module ManifestTable {
  import opened Text
  import opened Aliases
  import opened Manifest
  import opened ManifestEmit
  import opened ManifestScope

  // ------------------------------------------------------------ what is planned

  predicate Prerendered(p: PageOptions) {
    p.prerender || p.prerenderAuto
  }

  predicate SveltePage(r: Route, o: RouteOptions) {
    r.hasPage && o.Some? && r.pattern in o.value && o.value[r.pattern].svelte
  }

  /** Not annotated, and prerendered, or live with page data to type the render call. */
  predicate Transpilable(r: Route, o: RouteOptions) {
    && SveltePage(r, o)
    && !r.ssrFallback
    && (Prerendered(o.value[r.pattern]) || (o.value[r.pattern].ssr && r.hasPageServer && r.shaped))
  }

  /** Annotated, and rendered on the server at all. */
  predicate ForSidecar(r: Route, o: RouteOptions) {
    SveltePage(r, o) && r.ssrFallback && (Prerendered(o.value[r.pattern]) || o.value[r.pattern].ssr)
  }

  lemma PlanIs(r: Route, o: RouteOptions)
    ensures PlanOf(r, o) == Transpile <==> Transpilable(r, o)
    ensures PlanOf(r, o) == Sidecar <==> ForSidecar(r, o)
  {
  }

  ghost predicate SomeTranspilable(rs: seq<Route>, o: RouteOptions, pattern: string) {
    exists q :: q in rs && q.pattern == pattern && Transpilable(q, o)
  }

  ghost predicate SomeForSidecar(rs: seq<Route>, o: RouteOptions, pattern: string) {
    exists q :: q in rs && q.pattern == pattern && ForSidecar(q, o)
  }

  lemma PlannedIs(rs: seq<Route>, o: RouteOptions, plan: Plan, pattern: string)
    ensures pattern in Planned(rs, o, plan) <==> exists q :: q in rs && q.pattern == pattern && PlanOf(q, o) == plan
  {
    if pattern in Planned(rs, o, plan) {
      PlannedFrom(rs, o, plan, pattern);
    }
    if q :| q in rs && q.pattern == pattern && PlanOf(q, o) == plan {
      PlannedHas(rs, o, plan, q);
    }
  }

  /** planSSR's two plans, pattern by pattern. */
  lemma PlansExactly(rs: seq<Route>, o: RouteOptions, pattern: string)
    ensures pattern in Planned(rs, o, Transpile) <==> SomeTranspilable(rs, o, pattern)
    ensures pattern in Planned(rs, o, Sidecar) <==> SomeForSidecar(rs, o, pattern)
  {
    PlannedIs(rs, o, Transpile, pattern);
    PlannedIs(rs, o, Sidecar, pattern);
    forall q | q in rs
      ensures PlanOf(q, o) == Transpile <==> Transpilable(q, o)
      ensures PlanOf(q, o) == Sidecar <==> ForSidecar(q, o)
    {
      PlanIs(q, o);
    }
  }

  /** An annotated Svelte page that is neither prerendered nor rendered live is in neither plan. */
  lemma AnnotatedButOff(r: Route, o: RouteOptions)
    requires SveltePage(r, o) && r.ssrFallback && !Prerendered(o.value[r.pattern]) && !o.value[r.pattern].ssr
    ensures Planned([r], o, Sidecar) == [] && Planned([r], o, Transpile) == []
  {
    PlanIs(r, o);
    assert [r][..0] == [];
    assert Planned([], o, Sidecar) == [] && Planned([], o, Transpile) == [];
  }

  // -------------------------------------------------------- what is registered

  /** Some route lists the package as a layout with a server file. */
  ghost predicate HasServerFile(rs: seq<Route>, p: string) {
    exists q, i :: q in rs && ServesAt(q, i, p)
  }

  predicate ServesAt(q: Route, i: int, p: string) {
    0 <= i < |q.layouts| && i < |q.layoutServers| && q.layouts[i] == p && q.layoutServers[i]
  }

  lemma {:induction false} InServedOf(r: Route, k: nat, p: string)
    requires k <= |r.layouts|
    ensures p in ServedOf(r, k) <==> exists i :: i < k && ServesAt(r, i, p)
  {
    if k > 0 {
      InServedOf(r, k - 1, p);
      assert ServesAt(r, k - 1, p) <==> k - 1 < |r.layoutServers| && r.layoutServers[k - 1] && r.layouts[k - 1] == p;
    }
  }

  lemma {:induction false} ServedExactly(rs: seq<Route>, p: string)
    ensures p in ServedPkgs(rs) <==> HasServerFile(rs, p)
  {
    if |rs| > 0 {
      var n := |rs| - 1;
      ServedExactly(rs[..n], p);
      InServedOf(rs[n], |rs[n].layouts|, p);
      assert rs == rs[..n] + [rs[n]] && rs[n] in rs;
    }
  }

  lemma {:induction false} LayoutsExactly(rs: seq<Route>, p: string)
    ensures p in LayoutPkgs(rs) <==> exists r :: r in rs && p in r.layouts
  {
    if |rs| > 0 {
      var n := |rs| - 1;
      LayoutsExactly(rs[..n], p);
      InAddAll(LayoutPkgs(rs[..n]), rs[n].layouts, p);
      assert rs == rs[..n] + [rs[n]] && rs[n] in rs;
    }
  }

  lemma {:induction false} ErrorsExactly(rs: seq<Route>, p: string)
    ensures p in ErrorPkgs(rs) <==> p != "" && exists r :: r in rs && r.errorPkg == p
  {
    if |rs| > 0 {
      var n := |rs| - 1;
      ErrorsExactly(rs[..n], p);
      assert rs == rs[..n] + [rs[n]] && rs[n] in rs;
    }
  }

  /** The entries are the routes with a page or a server file, in the order of the scan. */
  lemma {:induction false} EntriesAppend(a: seq<Route>, b: seq<Route>)
    ensures Entries(a + b) == Entries(a) + Entries(b)
    ensures |b| == 1 ==> Entries(b) == if b[0].hasPage || b[0].hasServer then b else []
  {
    if |b| == 0 {
      assert a + b == a;
    } else {
      var n := |b| - 1;
      assert (a + b)[..|a + b| - 1] == a + b[..n];
      EntriesAppend(a, b[..n]);
    }
  }

  // ----------------------------------------------------------- the table's fields

  /** The loader field goes with the layouts: none of them has a server file, or position by position. */
  ghost predicate LoadersServe(c: Ctx, rs: seq<Route>, layouts: seq<string>, loaders: seq<Option<Name>>) {
    if forall p :: p in layouts ==> !HasServerFile(rs, p) then loaders == []
    else
      && |loaders| == |layouts|
      && forall i :: 0 <= i < |layouts| ==>
        loaders[i] == if HasServerFile(rs, layouts[i]) then Some(LoadLayout(AliasOf(c, layouts[i]))) else None
  }

  /** The fields of a route's entry, as the scan and the options have them. */
  ghost predicate Serves(c: Ctx, rs: seq<Route>, o: RouteOptions, r: Route, e: TableEntry) {
    && e.pattern == r.pattern
    && e.server == (if r.hasServer then Some(AliasOf(c, r.pkg)) else None)
    && e.load == (if r.hasPageServer then Some(AliasOf(c, r.pkg)) else None)
    && e.page == (if r.hasServer || !r.hasPage then None
                  else if SomeTranspilable(rs, o, r.pattern) then Some(RenderPage(AliasOf(c, r.pkg)))
                  else if SomeForSidecar(rs, o, r.pattern) then Some(RenderFallback(r.ident))
                  else None)
    && e.chain == (if r.hasPage && r.layouts != [] then Some(RenderChain(r.ident)) else None)
    && LoadersServe(c, rs, r.layouts, e.loaders)
    && (e.hasOptions <==> o.Some?)
    && e.renderError == (if r.errorPkg != "" then Some(RenderErrorChain(r.ident)) else None)
  }

  lemma {:induction false} LoaderListAll(c: Ctx, ps: seq<string>)
    requires forall p :: p in ps ==> p in c.layouts
    ensures |LoaderList(c, ps)| == |ps|
    ensures forall i :: 0 <= i < |ps| ==>
      LoaderList(c, ps)[i] == if ps[i] in c.served then Some(LoadLayout(AliasOf(c, ps[i]))) else None
  {
    if |ps| > 0 {
      LoaderListAll(c, ps[..|ps| - 1]);
    }
  }

  lemma LoadersAligned(c: Ctx, rs: seq<Route>, opts: Options, r: Route)
    requires Collected(c, rs, opts) && r in Entries(rs)
    ensures LoadersServe(c, rs, r.layouts, Loaders(c, r))
  {
    InEntries(rs, r);
    forall p | p in r.layouts
      ensures p in c.layouts && (p in c.served <==> HasServerFile(rs, p))
    {
      LayoutsRegistered(rs, r, p);
      ServedExactly(rs, p);
    }
    LoaderListAll(c, r.layouts);
  }

  /** Every entry of the table is what its route, the scan and the options ask for. */
  lemma TableServes(c: Ctx, rs: seq<Route>, opts: Options, out: Output)
    requires Scanned(c, rs, opts) && Emitted(c, Entries(rs), out)
    ensures |out.table| == |Entries(rs)|
    ensures forall i :: 0 <= i < |out.table| ==> Serves(c, rs, opts.routes, Entries(rs)[i], out.table[i])
  {
    forall i | 0 <= i < |out.table|
      ensures Serves(c, rs, opts.routes, Entries(rs)[i], out.table[i])
    {
      EntryServes(c, rs, opts, Entries(rs)[i]);
    }
  }

  lemma EntryServes(c: Ctx, rs: seq<Route>, opts: Options, r: Route)
    requires Scanned(c, rs, opts) && r in Entries(rs)
    ensures Serves(c, rs, opts.routes, r, EntryOf(c, r))
  {
    LoadersAligned(c, rs, opts, r);
    ErrorChainExactly(c, rs, opts, r);
    PlansExactly(rs, opts.routes, r.pattern);
  }

  // ------------------------------------------------------- what Routes() names

  /** Some entry of the table names the function. */
  lemma NamedByEntry(c: Ctx, rs: seq<Route>, n: Name)
    ensures n in RoutesCalls(c, rs) <==> exists r :: r in rs && n in NamesIn(EntryOf(c, r))
  {
    InRoutesCalls(c, rs, n);
    forall r
      ensures NamesIn(EntryOf(c, r)) == EntryCalls(c, r)
    {
      EntryNames(c, r);
    }
  }

  lemma ChainField(c: Ctx, r: Route, x: string)
    ensures RenderChain(x) in NamesIn(EntryOf(c, r)) <==> r.ident == x && r.hasPage && |r.layouts| > 0
  {
    EntryNames(c, r);
  }

  /** Routes() names the chains of the pages with layouts, and no other. */
  lemma ChainNamedExactly(c: Ctx, rs: seq<Route>, x: string)
    ensures RenderChain(x) in RoutesCalls(c, Entries(rs))
       <==> exists r :: r in Entries(rs) && r.ident == x && r.hasPage && |r.layouts| > 0
  {
    NamedByEntry(c, Entries(rs), RenderChain(x));
    forall r
      ensures RenderChain(x) in NamesIn(EntryOf(c, r)) <==> r.ident == x && r.hasPage && |r.layouts| > 0
    {
      ChainField(c, r, x);
    }
  }

  lemma ErrorChainField(c: Ctx, r: Route, x: string)
    ensures RenderErrorChain(x) in NamesIn(EntryOf(c, r)) <==> r.ident == x && HasErrorChain(c, r)
  {
    EntryNames(c, r);
  }

  /** Routes() names the error chains of the entries with a boundary. */
  lemma ErrorChainNamedExactly(c: Ctx, rs: seq<Route>, opts: Options, x: string)
    requires Collected(c, rs, opts)
    ensures RenderErrorChain(x) in RoutesCalls(c, Entries(rs))
       <==> exists r :: r in Entries(rs) && r.ident == x && r.errorPkg != ""
  {
    NamedByEntry(c, Entries(rs), RenderErrorChain(x));
    forall r | r in Entries(rs)
      ensures RenderErrorChain(x) in NamesIn(EntryOf(c, r)) <==> r.ident == x && r.errorPkg != ""
    {
      ErrorChainField(c, r, x);
      ErrorChainExactly(c, rs, opts, r);
    }
  }

  lemma FallbackField(c: Ctx, r: Route, x: string)
    ensures RenderFallback(x) in NamesIn(EntryOf(c, r))
       <==> r.ident == x && r.hasPage && !r.hasServer && r.pattern in c.opts.fallback && r.pattern !in c.opts.ssr
  {
    EntryNames(c, r);
  }

  /** Routes() names the sidecar handlers of the pages whose pattern is for the sidecar and not transpiled. */
  lemma FallbackNamedExactly(c: Ctx, rs: seq<Route>, opts: Options, x: string)
    requires Scanned(c, rs, opts)
    ensures RenderFallback(x) in RoutesCalls(c, Entries(rs))
       <==> exists r :: r in Entries(rs) && r.ident == x && r.hasPage && !r.hasServer
                        && SomeForSidecar(rs, opts.routes, r.pattern) && !SomeTranspilable(rs, opts.routes, r.pattern)
  {
    NamedByEntry(c, Entries(rs), RenderFallback(x));
    forall r | r in Entries(rs)
      ensures RenderFallback(x) in NamesIn(EntryOf(c, r))
         <==> r.ident == x && r.hasPage && !r.hasServer
              && SomeForSidecar(rs, opts.routes, r.pattern) && !SomeTranspilable(rs, opts.routes, r.pattern)
    {
      FallbackField(c, r, x);
      PlansExactly(rs, opts.routes, r.pattern);
    }
  }

  lemma LoaderField(c: Ctx, r: Route, a: string)
    ensures LoadLayout(a) in NamesIn(EntryOf(c, r))
       <==> exists p :: p in r.layouts && p in c.layouts && p in c.served && AliasOf(c, p) == a
  {
    EntryNames(c, r);
  }

  /** Routes() names the loader of a layout that has one if and only if it is a layout of some entry. */
  lemma LoaderNamedExactly(c: Ctx, rs: seq<Route>, opts: Options, p: string)
    requires Collected(c, rs, opts) && p in c.layouts
    ensures LoadLayout(AliasOf(c, p)) in RoutesCalls(c, Entries(rs))
       <==> HasServerFile(rs, p) && exists r :: r in Entries(rs) && p in r.layouts
  {
    NamedByEntry(c, Entries(rs), LoadLayout(AliasOf(c, p)));
    ServedExactly(rs, p);
    forall r | r in Entries(rs)
      ensures LoadLayout(AliasOf(c, p)) in NamesIn(EntryOf(c, r)) <==> p in c.served && p in r.layouts
    {
      LoaderField(c, r, AliasOf(c, p));
      OnlyItsAlias(c, p);
    }
  }

  /** Registered layouts are told apart by their aliases. */
  lemma OnlyItsAlias(c: Ctx, p: string)
    requires Distinct(c.aliases) && Named(c.aliases, c.layouts) && p in c.layouts
    ensures forall q :: q in c.layouts && AliasOf(c, q) == AliasOf(c, p) ==> q == p
  {
  }
}
