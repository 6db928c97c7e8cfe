/** The manifest's registration of layouts is what makes the emitted chains balance and compose. */
module ManifestChains {
  import opened Text
  import opened Manifest
  import opened ManifestEmit
  import opened ManifestScope
  import opened ManifestTable
  import R = RenderChain
  import ChainMeaning

  /** The layout import map the chain emitter looks layouts up in. */
  function LayoutByPath(c: Ctx): R.Registry {
    map p | p in c.layouts :: AliasOf(c, p)
  }

  lemma RouteLayoutsRegistered(c: Ctx, rs: seq<Route>, opts: Options, r: Route)
    requires Collected(c, rs, opts) && r in Entries(rs)
    ensures R.AllRegistered(r.layouts, LayoutByPath(c))
    ensures R.AllRegistered(Surviving(r), LayoutByPath(c))
  {
    InEntries(rs, r);
    forall p | p in r.layouts
      ensures p in LayoutByPath(c)
    {
      LayoutsRegistered(rs, r, p);
    }
    assert forall p :: p in Surviving(r) ==> p in r.layouts;
  }

  /**
   Every route of every scan: its emitted chain, and its error chain, are whole function bodies,
   and running them is rendering the page inside its layouts, or the error page inside those left.
   */
  lemma EveryChainComposes<D, E>(c: Ctx, rs: seq<Route>, opts: Options, r: Route, env: ChainMeaning.Env<D, E>)
    requires Collected(c, rs, opts) && r in Entries(rs)
    ensures R.AllRegistered(r.layouts, LayoutByPath(c))
    ensures R.AllRegistered(Surviving(r), LayoutByPath(c))
    ensures ChainMeaning.Run(env, R.ChainLines(r.layouts, LayoutByPath(c)))
         == Some(ChainMeaning.PageInLayouts(env, ChainMeaning.Aliases(r.layouts, LayoutByPath(c)),
                                            ChainMeaning.DataOf(env.datas, |r.layouts|)))
    ensures ChainMeaning.Run(env, R.ErrorChainLines(Surviving(r), LayoutByPath(c)))
         == Some(ChainMeaning.ErrorInLayouts(env, ChainMeaning.Aliases(Surviving(r), LayoutByPath(c))))
  {
    RouteLayoutsRegistered(c, rs, opts, r);
    ChainMeaning.ChainComposes(env, r.layouts, LayoutByPath(c));
    ChainMeaning.ErrorChainComposes(env, Surviving(r), LayoutByPath(c));
  }

  // ------------------------------------------------- loaders and chains together

  /** The pipeline's layout data: what each loader returns, nil where there is none. */
  function Loaded<D>(loaders: seq<Option<Name>>, load: Name -> Option<D>): seq<Option<D>> {
    seq(|loaders|, i requires 0 <= i < |loaders| => if loaders[i].Some? then load(loaders[i].value) else None)
  }

  /** Each layout's own data: what its loader returns if it has a server file, and else nil. */
  ghost function OwnData<D>(c: Ctx, rs: seq<Route>, layouts: seq<string>, load: Name -> Option<D>): seq<Option<D>> {
    seq(|layouts|, i requires 0 <= i < |layouts| =>
      if HasServerFile(rs, layouts[i]) then load(LoadLayout(AliasOf(c, layouts[i]))) else None)
  }

  lemma LoadedIsOwn<D>(c: Ctx, rs: seq<Route>, opts: Options, r: Route, load: Name -> Option<D>)
    requires Collected(c, rs, opts) && r in Entries(rs)
    ensures ChainMeaning.DataOf(Loaded(EntryOf(c, r).loaders, load), |r.layouts|) == OwnData(c, rs, r.layouts, load)
  {
    LoadersAligned(c, rs, opts, r);
    var loaders := Loaders(c, r);
    var datas, own := Loaded(loaders, load), OwnData(c, rs, r.layouts, load);
    forall i | 0 <= i < |r.layouts|
      ensures ChainMeaning.DataOf(datas, |r.layouts|)[i] == own[i]
    {
      assert r.layouts[i] in r.layouts;
    }
  }

  /**
   On the data that the loaders of a route's table entry return, its chain renders every layout
   with the data of its own loader, whichever of the layouts have one.
   */
  lemma EveryLayoutGetsItsData<D, E>(c: Ctx, rs: seq<Route>, opts: Options, r: Route, env: ChainMeaning.Env<D, E>,
                                     load: Name -> Option<D>)
    requires Collected(c, rs, opts) && r in Entries(rs) && env.datas == Loaded(EntryOf(c, r).loaders, load)
    ensures R.AllRegistered(r.layouts, LayoutByPath(c))
    ensures ChainMeaning.Run(env, R.ChainLines(r.layouts, LayoutByPath(c)))
         == Some(ChainMeaning.PageInLayouts(env, ChainMeaning.Aliases(r.layouts, LayoutByPath(c)),
                                            OwnData(c, rs, r.layouts, load)))
  {
    EveryChainComposes(c, rs, opts, r, env);
    LoadedIsOwn(c, rs, opts, r, load);
  }

  // ------------------------------------------- declared calls and emitted lines

  lemma {:induction false} InOpens(paths: seq<string>, reg: R.Registry, nilData: bool, i: nat, a: string)
    requires i <= |paths|
    ensures (exists l :: l in R.OpensFrom(paths, reg, nilData, i) && l.OpenLayout? && l.alias == a)
       <==> exists k :: i <= k < |paths| && paths[k] in reg && reg[paths[k]] == a
    decreases |paths| - i
  {
    if i < |paths| {
      InOpens(paths, reg, nilData, i + 1, a);
      var rest := R.OpensFrom(paths, reg, nilData, i + 1);
      if paths[i] in reg {
        var open := R.OpenLayout(reg[paths[i]], R.DataFor(nilData, i));
        assert R.OpensFrom(paths, reg, nilData, i) == [open] + rest;
      }
    }
  }

  /** Some line calls the adapter with this alias. */
  ghost predicate CallsLayout(lines: seq<R.Line>, a: string) {
    exists l :: l in lines && l.OpenLayout? && l.alias == a
  }

  lemma {:induction false} NoLayoutInCloses(n: nat)
    ensures forall l :: l in R.Closes(n) ==> l == R.CloseLayout
  {
    if n > 0 {
      NoLayoutInCloses(n - 1);
    }
  }

  lemma InNest(paths: seq<string>, reg: R.Registry, nilData: bool, wrap: bool, a: string)
    ensures CallsLayout(R.NestLines(paths, reg, nilData, wrap), a)
       <==> CallsLayout(R.OpensFrom(paths, reg, nilData, 0), a)
  {
    NoLayoutInCloses(|paths|);
  }

  lemma InLayoutCalls(c: Ctx, ps: seq<string>, nilData: bool, a: string)
    ensures CallsLayout(R.OpensFrom(ps, LayoutByPath(c), nilData, 0), a) <==> RenderLayout(a) in LayoutCalls(c, ps)
  {
    var reg := LayoutByPath(c);
    InOpens(ps, reg, nilData, 0, a);
    if k :| 0 <= k < |ps| && ps[k] in reg && reg[ps[k]] == a {
      assert ps[k] in ps;
    }
  }

  /** What a chain is declared to call is what its lines call. */
  lemma ChainLinesCall(c: Ctx, r: Route, a: string)
    requires HasChain(r)
    ensures CallsLayout(R.ChainLines(r.layouts, LayoutByPath(c)), a) <==> RenderLayout(a) in ChainDecl(c, r)[0].calls
  {
    InNest(r.layouts, LayoutByPath(c), false, true, a);
    InLayoutCalls(c, r.layouts, false, a);
  }

  lemma ErrorChainLinesCall(c: Ctx, r: Route, a: string)
    requires HasErrorChain(c, r)
    ensures CallsLayout(R.ErrorChainLines(Surviving(r), LayoutByPath(c)), a)
       <==> RenderLayout(a) in ErrorChainDecl(c, r)[0].calls
  {
    InNest(Surviving(r), LayoutByPath(c), true, false, a);
    InLayoutCalls(c, Surviving(r), true, a);
  }
}
