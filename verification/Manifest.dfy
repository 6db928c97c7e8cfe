/**
 The manifest emitter as a small compiler: from a route scan to import qualifiers and
 abstract declarations (the name declared, the qualifiers used, the functions named).
 */
module Manifest {
  import opened Text
  import opened Aliases

  // ------------------------------------------------------------------ the input

  /**
   A scanned route. `ident` is routeIdent of its segments, `layoutServers[i]` says whether the i-th
   layout has a server file, `shaped` whether the page's server file declares a PageData with fields.
   */
  datatype Route = Route(
    pattern: string, pkg: string, ident: string,
    hasPage: bool, hasServer: bool, hasPageServer: bool,
    layouts: seq<string>, layoutServers: seq<bool>,
    errorPkg: string, errorDepth: int,
    ssrFallback: bool, shaped: bool)

  datatype PageOptions = PageOptions(svelte: bool, ssr: bool, prerender: bool, prerenderAuto: bool, csrf: bool)

  type RouteOptions = Option<map<string, PageOptions>>

  /** Page options per pattern, patterns with an SSR render emit, patterns served by the sidecar. */
  datatype Options = Options(routes: RouteOptions, ssr: set<string>, fallback: seq<string>)

  /** isSvelteRoute: a missing entry is not Svelte. */
  predicate IsSvelte(o: RouteOptions, pattern: string) {
    o.Some? && pattern in o.value && o.value[pattern].svelte
  }

  /** routeCSRFEnabled: a missing entry has the default, which is on. */
  predicate CsrfEnabled(o: RouteOptions, pattern: string) {
    o.None? || pattern !in o.value || o.value[pattern].csrf
  }

  // -------------------------------------------------------------------- planning

  datatype Plan = Skip | Transpile | Sidecar

  function PlanOf(r: Route, o: RouteOptions): Plan {
    if !r.hasPage || !IsSvelte(o, r.pattern) then Skip
    else
      var opts := o.value[r.pattern];
      var prerender := opts.prerender || opts.prerenderAuto;
      if !prerender && !opts.ssr then Skip
      else if r.ssrFallback then Sidecar
      else if !(r.hasPageServer && r.shaped) && !prerender then Skip
      else Transpile
  }

  function Planned(rs: seq<Route>, o: RouteOptions, plan: Plan): seq<string> {
    if |rs| == 0 then []
    else
      var n := |rs| - 1;
      Planned(rs[..n], o, plan) + (if PlanOf(rs[n], o) == plan then [rs[n].pattern] else [])
  }

  /** planSSR: the patterns to transpile and the patterns for the sidecar. */
  method PlanSSR(rs: seq<Route>, o: RouteOptions) returns (plans: seq<string>, fallback: seq<string>)
    ensures plans == Planned(rs, o, Transpile) && fallback == Planned(rs, o, Sidecar)
  {
    plans, fallback := [], [];
    for i := 0 to |rs|
      invariant plans == Planned(rs[..i], o, Transpile) && fallback == Planned(rs[..i], o, Sidecar)
    {
      assert rs[..i + 1][..i] == rs[..i];
      var r := rs[i];
      if !r.hasPage || o.None? || r.pattern !in o.value || !o.value[r.pattern].svelte {
        continue;
      }
      var opts := o.value[r.pattern];
      var prerender := opts.prerender || opts.prerenderAuto;
      if !prerender && !opts.ssr {
        continue;
      }
      if r.ssrFallback {
        fallback := fallback + [r.pattern];
        continue;
      }
      if !(r.hasPageServer && r.shaped) && !prerender {
        continue;
      }
      plans := plans + [r.pattern];
    }
    assert rs[..|rs|] == rs;
  }

  /** The options carry what planSSR planned for these routes. */
  ghost predicate FromPlan(rs: seq<Route>, opts: Options) {
    && opts.ssr == (set p | p in Planned(rs, opts.routes, Transpile))
    && opts.fallback == Planned(rs, opts.routes, Sidecar)
  }

  // ------------------------------------------------------------------ the output

  /** What a qualifier in the generated file refers to. */
  datatype Qual = Fmt | Kit | RenderPkg | ServerPkg | FallbackPkg | CsrfInject | RouterPkg | Pkg(alias: string)

  /** The names the generated file declares. */
  datatype Name =
    | HasServiceWorker
    | RouteID(ident: string)
    | RenderPage(alias: string)
    | RenderFallback(ident: string)
    | Init
    | RenderLayout(alias: string)
    | LoadLayout(alias: string)
    | RenderError(alias: string)
    | LayoutDataAt
    | RenderChain(ident: string)
    | RenderErrorChain(ident: string)
    | Routes

  datatype Decl = Decl(name: Name, uses: set<Qual>, calls: set<Name>)

  /** One entry of the table in Routes(); a package's symbols are given by its alias. */
  datatype TableEntry = TableEntry(
    pattern: string,
    server: Option<string>,          // Server: alias.Handlers
    page: Option<Name>,              // Page
    load: Option<string>,            // Load: alias.Load, Actions: alias.Actions
    chain: Option<Name>,             // RenderChain
    loaders: seq<Option<Name>>,      // LayoutLoaders, where None is nil
    hasOptions: bool,                // Options
    renderError: Option<Name>)       // RenderError

  datatype Output = Output(imports: seq<Qual>, decls: seq<Decl>, table: seq<TableEntry>)

  /** Everything collected before the first line is written. */
  datatype Ctx = Ctx(
    opts: Options,
    aliases: map<string, string>,
    layouts: seq<string>,
    served: set<string>,
    errors: seq<string>)

  function AliasOf(c: Ctx, pkg: string): string {
    if pkg in c.aliases then c.aliases[pkg] else ""
  }

  // ----------------------------------------------- what is declared for one route

  predicate Adapted(opts: Options, r: Route) {
    r.hasPage && (IsSvelte(opts.routes, r.pattern) ==> r.pattern in opts.ssr)
  }

  function RenderAdapter(c: Ctx, r: Route): seq<Decl> {
    if !Adapted(c.opts, r) then []
    else
      var a := AliasOf(c, r.pkg);
      var own := if IsSvelte(c.opts.routes, r.pattern) then ServerPkg else Fmt;
      [Decl(RenderPage(a), {RenderPkg, Kit, Pkg(a), own}, {})]
  }

  predicate Sidecared(c: Ctx, r: Route) {
    r.hasPage && IsSvelte(c.opts.routes, r.pattern) && r.pattern in c.opts.fallback
  }

  function FallbackAdapter(c: Ctx, r: Route): seq<Decl> {
    if !Sidecared(c, r) then []
    else
      [Decl(RenderFallback(r.ident),
            {RenderPkg, Kit, FallbackPkg} + (if CsrfEnabled(c.opts.routes, r.pattern) then {CsrfInject} else {}), {})]
  }

  predicate HasChain(r: Route) {
    r.hasPage && |r.layouts| > 0
  }

  predicate HasErrorChain(c: Ctx, r: Route) {
    r.errorPkg != "" && r.errorPkg in c.errors && AliasOf(c, r.errorPkg) != ""
  }

  /** The adapters of the registered layouts among these. */
  function LayoutCalls(c: Ctx, ps: seq<string>): set<Name> {
    set p | p in ps && p in c.layouts :: RenderLayout(AliasOf(c, p))
  }

  function ChainDecl(c: Ctx, r: Route): seq<Decl> {
    if !HasChain(r) then []
    else
      [Decl(RenderChain(r.ident), {RenderPkg, Kit, RouterPkg, ServerPkg},
            {LayoutDataAt} + LayoutCalls(c, r.layouts))]
  }

  function Surviving(r: Route): seq<string> {
    r.layouts[..if r.errorDepth < 0 then 0 else if r.errorDepth > |r.layouts| then |r.layouts| else r.errorDepth]
  }

  function ErrorChainDecl(c: Ctx, r: Route): seq<Decl> {
    if !HasErrorChain(c, r) then []
    else
      [Decl(RenderErrorChain(r.ident), {RenderPkg, Kit} + (if |Surviving(r)| > 0 then {ServerPkg} else {}),
            {RenderError(AliasOf(c, r.errorPkg))} + LayoutCalls(c, Surviving(r)))]
  }

  function LayoutAdapter(c: Ctx, p: string): seq<Decl> {
    var a := AliasOf(c, p);
    [Decl(RenderLayout(a), {RenderPkg, Kit, ServerPkg, Pkg(a)}, {})]
    + (if p in c.served then [Decl(LoadLayout(a), {Kit, Pkg(a)}, {})] else [])
  }

  function ErrorAdapter(c: Ctx, p: string): seq<Decl> {
    var a := AliasOf(c, p);
    [Decl(RenderError(a), {RenderPkg, Kit, ServerPkg, Pkg(a)}, {})]
  }

  // ---------------------------------------------------- one route's table entry

  /** The handler a page route is given. */
  function PageCall(c: Ctx, r: Route): set<Name> {
    if r.hasServer || !r.hasPage then {}
    else if r.pattern in c.opts.ssr then {RenderPage(AliasOf(c, r.pkg))}
    else if r.pattern in c.opts.fallback then {RenderFallback(r.ident)}
    else {}
  }

  function LoaderCalls(c: Ctx, r: Route): set<Name> {
    set p | p in r.layouts && p in c.layouts && p in c.served :: LoadLayout(AliasOf(c, p))
  }

  predicate AnyServed(c: Ctx, ps: seq<string>) {
    exists p :: p in ps && p in c.layouts && p in c.served
  }

  /** One loader or nil for each registered layout, in order. */
  function LoaderList(c: Ctx, ps: seq<string>): seq<Option<Name>> {
    if |ps| == 0 then []
    else
      var p := ps[|ps| - 1];
      LoaderList(c, ps[..|ps| - 1])
      + if p !in c.layouts then [] else [if p in c.served then Some(LoadLayout(AliasOf(c, p))) else None]
  }

  /** The field for r.layouts; it is left out when none of them has a server file. */
  function Loaders(c: Ctx, r: Route): seq<Option<Name>> {
    if AnyServed(c, r.layouts) then LoaderList(c, r.layouts) else []
  }

  function PageField(c: Ctx, r: Route): Option<Name> {
    if r.hasServer || !r.hasPage then None
    else if r.pattern in c.opts.ssr then Some(RenderPage(AliasOf(c, r.pkg)))
    else if r.pattern in c.opts.fallback then Some(RenderFallback(r.ident))
    else None
  }

  /** The table entry of a route. */
  function EntryOf(c: Ctx, r: Route): TableEntry {
    TableEntry(
      r.pattern,
      if r.hasServer then Some(AliasOf(c, r.pkg)) else None,
      PageField(c, r),
      if r.hasPageServer then Some(AliasOf(c, r.pkg)) else None,
      if HasChain(r) then Some(RenderChain(r.ident)) else None,
      Loaders(c, r),
      c.opts.routes.Some?,
      if HasErrorChain(c, r) then Some(RenderErrorChain(r.ident)) else None)
  }

  function Table(c: Ctx, rs: seq<Route>): seq<TableEntry> {
    seq(|rs|, i requires 0 <= i < |rs| => EntryOf(c, rs[i]))
  }

  function Opt<T>(o: Option<T>): set<T> {
    if o.Some? then {o.value} else {}
  }

  /** The functions an entry names, and the qualifiers it uses. */
  function NamesIn(e: TableEntry): set<Name> {
    Opt(e.page) + Opt(e.chain) + (set o | o in e.loaders && o.Some? :: o.value) + Opt(e.renderError)
  }

  function QualsIn(e: TableEntry): set<Qual> {
    (set a | a in Opt(e.server) + Opt(e.load) :: Pkg(a)) + if e.hasOptions then {Kit} else {}
  }

  function EntryCalls(c: Ctx, r: Route): set<Name> {
    PageCall(c, r)
    + (if HasChain(r) then {RenderChain(r.ident)} else {})
    + LoaderCalls(c, r)
    + (if HasErrorChain(c, r) then {RenderErrorChain(r.ident)} else {})
  }

  function EntryUses(c: Ctx, r: Route): set<Qual> {
    (if r.hasServer || r.hasPageServer then {Pkg(AliasOf(c, r.pkg))} else {})
    + (if c.opts.routes.Some? then {Kit} else {})
  }

  // ----------------------------------------------------------- the declarations

  /** The sections that go through the routes, and those that go through packages. */
  datatype RouteSection = RouteIDs | RenderAdapters | FallbackAdapters

  datatype PkgSection = LayoutAdapters | ErrorAdapters

  function ForRoute(k: RouteSection, c: Ctx, r: Route): seq<Decl> {
    match k
    case RouteIDs => [Decl(RouteID(r.ident), {}, {})]
    case RenderAdapters => RenderAdapter(c, r)
    case FallbackAdapters => FallbackAdapter(c, r)
  }

  function ForRoutes(k: RouteSection, c: Ctx, rs: seq<Route>): seq<Decl> {
    if |rs| == 0 then [] else ForRoutes(k, c, rs[..|rs| - 1]) + ForRoute(k, c, rs[|rs| - 1])
  }

  function ForPkg(k: PkgSection, c: Ctx, p: string): seq<Decl> {
    match k
    case LayoutAdapters => LayoutAdapter(c, p)
    case ErrorAdapters => ErrorAdapter(c, p)
  }

  function ForPkgs(k: PkgSection, c: Ctx, ps: seq<string>): seq<Decl> {
    if |ps| == 0 then [] else ForPkgs(k, c, ps[..|ps| - 1]) + ForPkg(k, c, ps[|ps| - 1])
  }

  predicate NeedsHelper(c: Ctx, r: Route) {
    HasChain(r) || HasErrorChain(c, r)
  }

  predicate AnyNeedsHelper(c: Ctx, rs: seq<Route>) {
    exists r :: r in rs && NeedsHelper(c, r)
  }

  /** The chains; the data helper stands before the first of them. */
  function Chains(c: Ctx, rs: seq<Route>): seq<Decl> {
    if |rs| == 0 then []
    else
      var n := |rs| - 1;
      Chains(c, rs[..n])
      + (if NeedsHelper(c, rs[n]) && !AnyNeedsHelper(c, rs[..n]) then [Decl(LayoutDataAt, {}, {})] else [])
      + ChainDecl(c, rs[n])
      + ErrorChainDecl(c, rs[n])
  }

  function RoutesUses(c: Ctx, rs: seq<Route>): set<Qual> {
    if |rs| == 0 then {} else RoutesUses(c, rs[..|rs| - 1]) + EntryUses(c, rs[|rs| - 1])
  }

  function RoutesCalls(c: Ctx, rs: seq<Route>): set<Name> {
    if |rs| == 0 then {} else RoutesCalls(c, rs[..|rs| - 1]) + EntryCalls(c, rs[|rs| - 1])
  }

  function RoutesDecl(c: Ctx, rs: seq<Route>): Decl {
    Decl(Routes, {RouterPkg} + RoutesUses(c, rs), RoutesCalls(c, rs))
  }

  function FallbackInit(c: Ctx): seq<Decl> {
    if |c.opts.fallback| == 0 then [] else [Decl(Init, {FallbackPkg}, {})]
  }

  /** The generated file's declarations, section by section. */
  function Decls(c: Ctx, rs: seq<Route>): seq<Decl> {
    [Decl(HasServiceWorker, {}, {})]
    + ForRoutes(RouteIDs, c, rs)
    + ForRoutes(RenderAdapters, c, rs)
    + ForRoutes(FallbackAdapters, c, rs)
    + FallbackInit(c)
    + ForPkgs(LayoutAdapters, c, c.layouts)
    + ForPkgs(ErrorAdapters, c, c.errors)
    + Chains(c, rs)
    + [RoutesDecl(c, rs)]
  }
}
