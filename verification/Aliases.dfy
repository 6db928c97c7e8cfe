/** Import aliases in the generated manifest: packageAlias, which is not injective, made so by a search. */
module Aliases {
  import opened Text

  const STEM := "page_"

  /** packageAlias. */
  function PackageAlias(pkg: string): (a: string)
    ensures HasPrefix(a, STEM)
  {
    var rel := TrimPrefix(pkg, ".gen/");
    if rel == "" || rel == ".gen" then Stemmed("routes") else Stemmed(Join(Split(rel, '/'), "_"))
  }

  function Stemmed(s: string): (a: string)
    ensures HasPrefix(a, STEM)
  {
    assert (STEM + s)[..|STEM|] == STEM;
    STEM + s
  }

  /** The i-th name tried for a package. */
  function Candidate(base: string, i: nat): string {
    if i < 2 then base else base + "_" + Itoa(i)
  }

  lemma CandidatesDiffer(base: string, i: nat, j: nat)
    requires 1 <= i < j
    ensures Candidate(base, i) != Candidate(base, j)
  {
    if Candidate(base, i) == Candidate(base, j) {
      assert i >= 2;
      assert Itoa(i) == Candidate(base, i)[|base| + 1..] && Itoa(j) == Candidate(base, j)[|base| + 1..];
      ItoaInjective(i, j);
    }
  }

  lemma CandidateStem(base: string, i: nat)
    requires HasPrefix(base, STEM)
    ensures HasPrefix(Candidate(base, i), STEM)
  {
  }

  /** One of the names tried for a package. */
  ghost predicate TriedFor(pkg: string, alias: string) {
    exists k: nat :: 1 <= k && alias == Candidate(PackageAlias(pkg), k)
  }

  /** The first of the names tried that nobody has. */
  ghost predicate FirstFree(taken: set<string>, base: string, alias: string) {
    exists k: nat :: 1 <= k && alias == Candidate(base, k) && TakenBefore(taken, base, k) && alias !in taken
  }

  predicate TakenBefore(taken: set<string>, base: string, k: nat) {
    forall j: nat :: 1 <= j < k ==> Candidate(base, j) in taken
  }

  /** No two packages have one alias, and each has one of its own names, which start with "page_". */
  ghost predicate Distinct(m: map<string, string>) {
    && (forall p, q :: p in m && q in m && m[p] == m[q] ==> p == q)
    && (forall p :: p in m ==> HasPrefix(m[p], STEM) && TriedFor(p, m[p]))
  }

  ghost predicate Extends(m: map<string, string>, before: map<string, string>) {
    forall p :: p in before ==> p in m && m[p] == before[p]
  }

  class AliasTable {
    var aliasByPkg: map<string, string>
    var aliasSet: set<string>

    ghost predicate Valid()
      reads this
    {
      Distinct(aliasByPkg) && forall p :: p in aliasByPkg ==> aliasByPkg[p] in aliasSet
    }

    constructor ()
      ensures Valid() && aliasByPkg == map[]
    {
      aliasByPkg, aliasSet := map[], {};
    }

    /** The search: the first candidate nobody has; it ends because the candidates all differ. */
    method FreeName(base: string) returns (alias: string)
      ensures FirstFree(aliasSet, base, alias)
    {
      alias := base;
      var i: nat := 2;
      ghost var tried: set<string> := {};
      while alias in aliasSet
        invariant i >= 2 && alias == Candidate(base, i - 1) && TakenBefore(aliasSet, base, i - 1)
        invariant tried <= aliasSet && Below(tried, base, i - 1)
        decreases |aliasSet - tried|
      {
        NotTried(tried, base, i - 1);
        TriedMore(aliasSet, tried, alias);
        tried := tried + {alias};
        alias := base + "_" + Itoa(i);
        i := i + 1;
      }
    }

    /** uniqueAlias: one alias per package, kept once given, and told apart from all others. */
    method UniqueAlias(pkg: string) returns (alias: string)
      requires Valid()
      modifies this
      ensures Valid() && Extends(aliasByPkg, old(aliasByPkg))
      ensures aliasByPkg.Keys == old(aliasByPkg).Keys + {pkg} && aliasByPkg[pkg] == alias
      ensures pkg !in old(aliasByPkg) ==> FirstFree(old(aliasSet), PackageAlias(pkg), alias)
      ensures aliasSet == old(aliasSet) + {alias}
    {
      if pkg in aliasByPkg {
        return aliasByPkg[pkg];
      }
      alias := FreeName(PackageAlias(pkg));
      FreeIsStemmed(aliasSet, pkg, alias);
      aliasSet := aliasSet + {alias};
      aliasByPkg := aliasByPkg[pkg := alias];
    }
  }

  /** These are all among the first names tried, before the k-th. */
  ghost predicate Below(tried: set<string>, base: string, k: nat) {
    forall a :: a in tried ==> exists j: nat :: 1 <= j < k && a == Candidate(base, j)
  }

  lemma NotTried(tried: set<string>, base: string, k: nat)
    requires Below(tried, base, k)
    ensures Candidate(base, k) !in tried
  {
    if Candidate(base, k) in tried {
      var j: nat :| 1 <= j < k && Candidate(base, k) == Candidate(base, j);
      CandidatesDiffer(base, j, k);
    }
  }

  lemma TriedMore(all: set<string>, tried: set<string>, a: string)
    requires a in all && a !in tried
    ensures |all - (tried + {a})| < |all - tried|
  {
    assert all - (tried + {a}) < all - tried;
    Smaller(all - (tried + {a}), all - tried);
  }

  lemma FreeIsStemmed(taken: set<string>, pkg: string, alias: string)
    requires FirstFree(taken, PackageAlias(pkg), alias)
    ensures HasPrefix(alias, STEM) && TriedFor(pkg, alias)
  {
    var k: nat :| 1 <= k && alias == Candidate(PackageAlias(pkg), k);
    CandidateStem(PackageAlias(pkg), k);
  }

  lemma Smaller(a: set<string>, b: set<string>)
    requires a < b
    ensures |a| < |b|
  {
    var x :| x in b && x !in a;
    assert a <= b - {x};
    SubsetSize(a, b - {x});
  }

  /** Two packages whose plain aliases clash. */
  lemma PackageAliasClashes()
    ensures PackageAlias("a/b") == PackageAlias("a_b")
  {
  }

  // ---------------------------------------------------------- aliases as identifiers

  /** Which characters beyond ASCII are letters or digits. */
  type Wide = char -> bool

  predicate IsIdentChar(wide: Wide, c: char) {
    || 'a' <= c <= 'z'
    || 'A' <= c <= 'Z'
    || IsDigit(c)
    || c == '_'
    || (c as int >= 0x80 && wide(c))
  }

  /** An alias starts with a letter, so this makes it an identifier. */
  predicate IsIdentText(wide: Wide, s: string) {
    forall i :: 0 <= i < |s| ==> IsIdentChar(wide, s[i])
  }

  predicate SlashedIdents(wide: Wide, s: string) {
    forall i :: 0 <= i < |s| ==> s[i] == '/' || IsIdentChar(wide, s[i])
  }

  /** Below .gen/ the path is made of identifier characters and slashes; .gen itself is special. */
  predicate PathFits(wide: Wide, pkg: string) {
    var rel := TrimPrefix(pkg, ".gen/");
    rel == ".gen" || SlashedIdents(wide, rel)
  }

  lemma IdentConcat(wide: Wide, a: string, b: string)
    ensures IsIdentText(wide, a + b) <==> IsIdentText(wide, a) && IsIdentText(wide, b)
  {
    var ab := a + b;
    assert forall i :: 0 <= i < |a| ==> ab[i] == a[i];
    assert forall i :: 0 <= i < |b| ==> ab[|a| + i] == b[i];
  }

  function Underscored(s: string): string {
    seq(|s|, i requires 0 <= i < |s| => if s[i] == '/' then '_' else s[i])
  }

  /** Splitting at slashes and joining with underscores replaces the slashes. */
  lemma {:induction false} SplitUnderscores(s: string)
    ensures Join(Split(s, '/'), "_") == Underscored(s)
  {
    if |s| > 0 {
      SplitUnderscores(s[1..]);
      var rest := Split(s[1..], '/');
      assert Underscored(s) == [if s[0] == '/' then '_' else s[0]] + Underscored(s[1..]);
      if s[0] == '/' {
        assert ([""] + rest)[1..] == rest;
        assert "" + "_" + Join(rest, "_") == ['_'] + Join(rest, "_");
      } else {
        JoinFront(s[0], rest, "_");
      }
    }
  }

  /** The alias of a package below .gen/ is its path with underscores for slashes, behind the stem. */
  lemma PackageAliasSpelled(rel: string)
    requires rel != "" && rel != ".gen"
    ensures PackageAlias(".gen/" + rel) == STEM + Underscored(rel)
  {
    assert (".gen/" + rel)[..5] == ".gen/" && (".gen/" + rel)[5..] == rel;
    SplitUnderscores(rel);
  }

  lemma UnderscoredFits(wide: Wide, s: string)
    ensures IsIdentText(wide, Underscored(s)) <==> SlashedIdents(wide, s)
  {
    assert forall i :: 0 <= i < |s| ==>
        (IsIdentChar(wide, Underscored(s)[i]) <==> s[i] == '/' || IsIdentChar(wide, s[i]));
  }

  lemma CandidateFits(wide: Wide, base: string, k: nat)
    ensures IsIdentText(wide, Candidate(base, k)) <==> IsIdentText(wide, base)
  {
    if k >= 2 {
      assert Candidate(base, k) == base + ("_" + Itoa(k));
      IdentConcat(wide, base, "_" + Itoa(k));
      IdentConcat(wide, "_", Itoa(k));
    }
  }

  /** An alias is an identifier if and only if its package path fits; the number behind it changes nothing. */
  lemma AliasFits(wide: Wide, pkg: string, alias: string)
    requires TriedFor(pkg, alias)
    ensures IsIdentText(wide, alias) <==> PathFits(wide, pkg)
  {
    var k: nat :| 1 <= k && alias == Candidate(PackageAlias(pkg), k);
    CandidateFits(wide, PackageAlias(pkg), k);
    BaseFits(wide, pkg);
  }

  lemma BaseFits(wide: Wide, pkg: string)
    ensures IsIdentText(wide, PackageAlias(pkg)) <==> PathFits(wide, pkg)
  {
    var rel := TrimPrefix(pkg, ".gen/");
    if rel != "" && rel != ".gen" {
      IdentConcat(wide, STEM, Join(Split(rel, '/'), "_"));
      SplitUnderscores(rel);
      UnderscoredFits(wide, rel);
    }
  }

  /** A directory name the scanner accepts as it is. */
  lemma HyphenDoesNotFit(wide: Wide)
    ensures !PathFits(wide, ".gen/routes/about-us")
  {
    var pkg, rel := ".gen/routes/about-us", "routes/about-us";
    assert pkg[..5] == ".gen/" && pkg[5..] == rel;
    assert rel[12] == '-';
  }
}
