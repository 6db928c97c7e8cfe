/** GenerateManifest as a whole: exactly when it fails, and what it returns otherwise. */
module ManifestGenerate {
  import opened Text
  import opened Aliases
  import opened Manifest
  import opened ManifestEmit
  import opened ManifestScope

  // -------------------------------------------------- where aliases are written

  /** The alias spelled inside a declared name, if there is one. */
  function AliasIn(n: Name): Option<string> {
    match n
    case RenderPage(a) => Some(a)
    case RenderLayout(a) => Some(a)
    case LoadLayout(a) => Some(a)
    case RenderError(a) => Some(a)
    case _ => None
  }

  predicate NameFits(wide: Wide, n: Name) {
    AliasIn(n).Some? ==> IsIdentText(wide, AliasIn(n).value)
  }

  predicate QualFits(wide: Wide, q: Qual) {
    q.Pkg? ==> IsIdentText(wide, q.alias)
  }

  predicate DeclFits(wide: Wide, d: Decl) {
    && NameFits(wide, d.name)
    && (forall q :: q in d.uses ==> QualFits(wide, q))
    && (forall n :: n in d.calls ==> NameFits(wide, n))
  }

  /** format.Source accepts the text: every alias written in it is an identifier. */
  predicate Formats(wide: Wide, out: Output) {
    (forall q :: q in out.imports ==> QualFits(wide, q)) && (forall d :: d in out.decls ==> DeclFits(wide, d))
  }

  /** Every package that is imported has a path of identifier characters and slashes. */
  predicate PathsFit(wide: Wide, rs: seq<Route>, opts: Options) {
    && (forall r :: r in Entries(rs) && WorthImporting(opts, r) ==> PathFits(wide, r.pkg))
    && (forall p :: p in LayoutPkgs(rs) ==> PathFits(wide, p))
    && (forall p :: p in ErrorPkgs(rs) ==> PathFits(wide, p))
  }

  // ------------------------------------------------ only imported aliases are written

  lemma LayoutAliasImported(c: Ctx, es: seq<Route>, ps: seq<string>, n: Name)
    requires n in LayoutCalls(c, ps)
    ensures AliasIn(n).Some? && ImportsPkg(c, es, AliasIn(n).value)
  {
  }

  lemma RouteAliasImported(c: Ctx, es: seq<Route>, r: Route)
    requires r in es && (Adapted(c.opts, r) || r.hasServer || r.hasPageServer || r.pattern in c.opts.ssr)
    ensures IsEntry(r) ==> ImportsPkg(c, es, AliasOf(c, r.pkg))
  {
    assert IsEntry(r) ==> WorthImporting(c.opts, r);
  }

  ghost predicate OnlyImported(c: Ctx, es: seq<Route>, d: Decl) {
    && (AliasIn(d.name).Some? ==> ImportsPkg(c, es, AliasIn(d.name).value))
    && (forall q :: q in d.uses && q.Pkg? ==> ImportsPkg(c, es, q.alias))
    && (forall n :: n in d.calls && AliasIn(n).Some? ==> ImportsPkg(c, es, AliasIn(n).value))
  }

  lemma ChainWrites(c: Ctx, es: seq<Route>, r: Route, d: Decl)
    requires r in es && InChain(c, r, d)
    ensures OnlyImported(c, es, d)
  {
    forall n | n in d.calls && AliasIn(n).Some?
      ensures ImportsPkg(c, es, AliasIn(n).value)
    {
      if n in LayoutCalls(c, r.layouts) {
        LayoutAliasImported(c, es, r.layouts, n);
      } else if n in LayoutCalls(c, Surviving(r)) {
        LayoutAliasImported(c, es, Surviving(r), n);
      }
    }
  }

  lemma AdapterWrites(c: Ctx, es: seq<Route>, r: Route, d: Decl)
    requires r in es && IsEntry(r) && FromRoute(c, r, d) && !InChain(c, r, d)
    ensures OnlyImported(c, es, d)
  {
    if Adapted(c.opts, r) {
      RouteAliasImported(c, es, r);
    }
  }

  lemma OnePkgWrites(k: PkgSection, c: Ctx, es: seq<Route>, p: string, d: Decl)
    requires d in ForPkg(k, c, p) && ImportsPkg(c, es, AliasOf(c, p))
    ensures OnlyImported(c, es, d)
  {
  }

  lemma PkgWrites(c: Ctx, es: seq<Route>, d: Decl)
    requires FromPkg(c, d)
    ensures OnlyImported(c, es, d)
  {
    if p :| p in c.layouts && d in ForPkg(LayoutAdapters, c, p) {
      OnePkgWrites(LayoutAdapters, c, es, p, d);
    } else {
      var p :| p in c.errors && d in ForPkg(ErrorAdapters, c, p);
      OnePkgWrites(ErrorAdapters, c, es, p, d);
    }
  }

  lemma TableUses(c: Ctx, es: seq<Route>, a: string)
    requires (forall r :: r in es ==> IsEntry(r)) && Pkg(a) in RoutesUses(c, es)
    ensures ImportsPkg(c, es, a)
  {
    InRoutesUses(c, es, Pkg(a));
    var r :| r in es && Pkg(a) in EntryUses(c, r);
    RouteAliasImported(c, es, r);
  }

  lemma EntryNames(c: Ctx, es: seq<Route>, r: Route, n: Name)
    requires r in es && IsEntry(r) && n in EntryCalls(c, r) && AliasIn(n).Some?
    ensures ImportsPkg(c, es, AliasIn(n).value)
  {
    if n in PageCall(c, r) {
      RouteAliasImported(c, es, r);
    }
  }

  lemma TableWrites(c: Ctx, es: seq<Route>)
    requires forall r :: r in es ==> IsEntry(r)
    ensures OnlyImported(c, es, RoutesDecl(c, es))
  {
    var d := RoutesDecl(c, es);
    forall q | q in d.uses && q.Pkg?
      ensures ImportsPkg(c, es, q.alias)
    {
      TableUses(c, es, q.alias);
    }
    forall n | n in d.calls && AliasIn(n).Some?
      ensures ImportsPkg(c, es, AliasIn(n).value)
    {
      InRoutesCalls(c, es, n);
      var r :| r in es && n in EntryCalls(c, r);
      EntryNames(c, es, r, n);
    }
  }

  /** No declaration spells an alias whose package is not imported. */
  lemma DeclWrites(c: Ctx, es: seq<Route>, d: Decl)
    requires (forall r :: r in es ==> IsEntry(r)) && d in Decls(c, es)
    ensures OnlyImported(c, es, d)
  {
    InDecls(c, es, d);
    if FromPkg(c, d) {
      PkgWrites(c, es, d);
    } else if r :| r in es && FromRoute(c, r, d) {
      if InChain(c, r, d) {
        ChainWrites(c, es, r, d);
      } else {
        AdapterWrites(c, es, r, d);
      }
    } else if d == RoutesDecl(c, es) {
      TableWrites(c, es);
    }
  }

  // --------------------------------------------------------- when the text is valid

  ghost predicate ImportsFit(wide: Wide, c: Ctx, es: seq<Route>) {
    forall a :: ImportsPkg(c, es, a) ==> IsIdentText(wide, a)
  }

  lemma AliasOfFits(wide: Wide, c: Ctx, p: string)
    requires Distinct(c.aliases) && p in c.aliases
    ensures IsIdentText(wide, AliasOf(c, p)) <==> PathFits(wide, p)
  {
    AliasFits(wide, p, c.aliases[p]);
  }

  lemma ImportsFitExactly(wide: Wide, c: Ctx, rs: seq<Route>, opts: Options)
    requires Collected(c, rs, opts)
    ensures ImportsFit(wide, c, Entries(rs)) <==> PathsFit(wide, rs, opts)
  {
    var es := Entries(rs);
    forall p | p in c.aliases
      ensures IsIdentText(wide, AliasOf(c, p)) <==> PathFits(wide, p)
    {
      AliasOfFits(wide, c, p);
    }
    if ImportsFit(wide, c, es) {
      ImportedPathsFit(wide, c, rs, opts);
    }
  }

  lemma ImportedPathsFit(wide: Wide, c: Ctx, rs: seq<Route>, opts: Options)
    requires Collected(c, rs, opts) && ImportsFit(wide, c, Entries(rs))
    requires forall p :: p in c.aliases ==> (IsIdentText(wide, AliasOf(c, p)) <==> PathFits(wide, p))
    ensures PathsFit(wide, rs, opts)
  {
    var es := Entries(rs);
    forall r | r in es && WorthImporting(opts, r)
      ensures PathFits(wide, r.pkg)
    {
      assert WorthImporting(c.opts, r);
      assert ImportsPkg(c, es, AliasOf(c, r.pkg));
    }
    forall p | p in c.layouts || p in c.errors
      ensures PathFits(wide, p)
    {
      assert ImportsPkg(c, es, AliasOf(c, p));
    }
  }

  /** The generated text is valid if and only if the path of every imported package fits. */
  lemma FormatsExactly(wide: Wide, c: Ctx, rs: seq<Route>, opts: Options, out: Output)
    requires Collected(c, rs, opts) && Emitted(c, Entries(rs), out)
    ensures Formats(wide, out) <==> PathsFit(wide, rs, opts)
  {
    ImportsFitExactly(wide, c, rs, opts);
    if ImportsFit(wide, c, Entries(rs)) {
      FittingFormats(wide, c, rs, out);
    }
    if Formats(wide, out) {
      FormattedFits(wide, c, Entries(rs), out);
    }
  }

  lemma WrittenFits(wide: Wide, c: Ctx, es: seq<Route>, d: Decl)
    requires ImportsFit(wide, c, es) && OnlyImported(c, es, d)
    ensures DeclFits(wide, d)
  {
  }

  lemma EntriesAreEntries(rs: seq<Route>)
    ensures forall r :: r in Entries(rs) ==> IsEntry(r)
  {
    forall r | r in Entries(rs)
      ensures IsEntry(r)
    {
      InEntries(rs, r);
    }
  }

  lemma ImportsAreFit(wide: Wide, c: Ctx, es: seq<Route>, q: Qual)
    requires ImportsFit(wide, c, es) && (ImportsFixed(c, es, q) || (q.Pkg? && ImportsPkg(c, es, q.alias)))
    ensures QualFits(wide, q)
  {
  }

  lemma FittingFormats(wide: Wide, c: Ctx, rs: seq<Route>, out: Output)
    requires ImportsFit(wide, c, Entries(rs)) && Emitted(c, Entries(rs), out)
    ensures Formats(wide, out)
  {
    EntriesAreEntries(rs);
    forall q | q in out.imports
      ensures QualFits(wide, q)
    {
      ImportsAreFit(wide, c, Entries(rs), q);
    }
    forall d | d in out.decls
      ensures DeclFits(wide, d)
    {
      DeclWrites(c, Entries(rs), d);
      WrittenFits(wide, c, Entries(rs), d);
    }
  }

  lemma FormattedFits(wide: Wide, c: Ctx, es: seq<Route>, out: Output)
    requires Formats(wide, out) && Imported(c, es, out.imports)
    ensures ImportsFit(wide, c, es)
  {
    forall a | ImportsPkg(c, es, a)
      ensures IsIdentText(wide, a)
    {
      assert Pkg(a) in out.imports && QualFits(wide, Pkg(a));
    }
  }

  /**
   GenerateManifest: an error if and only if two routes share an identifier or the path of an
   imported package does not fit, and else the generated file.
   */
  method GenerateManifest(wide: Wide, rs: seq<Route>, opts: Options) returns (r: Option<Output>, c: Ctx)
    ensures Collected(c, rs, opts)
    ensures r.None? <==> Collides(Entries(rs)) || !PathsFit(wide, rs, opts)
    ensures r.Some? ==> Emitted(c, Entries(rs), r.value)
  {
    var es;
    c, es := Collect(rs, opts);
    var imports := EmitImports(c, es);
    var ok := CheckRouteIDs(es);
    if !ok {
      return None, c;
    }
    var decls, table := EmitDecls(c, es);
    var out := Output(imports, decls, table);
    FormatsExactly(wide, c, rs, opts, out);
    if !Formats(wide, out) {
      return None, c;
    }
    return Some(out), c;
  }

  /** A page, API route or served page in a directory called about-us fails without any collision. */
  lemma HyphenFails(wide: Wide, rs: seq<Route>, opts: Options, r: Route)
    requires r in Entries(rs) && r.pkg == ".gen/routes/about-us" && WorthImporting(opts, r)
    ensures !PathsFit(wide, rs, opts)
  {
    HyphenDoesNotFit(wide);
  }
}
