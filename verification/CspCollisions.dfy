/**
 Why each condition on good configs is needed: for each of them two configs with one fingerprint
 and different headers, one of them good and the other breaking that condition alone.
 */
module CspCollisions {
  import opened Text
  import opened Sorting
  import opened Csp
  import opened CspCache

  // ------------------------------------------------------- the length of a header

  function Total(parts: seq<string>): nat {
    if |parts| == 0 then 0 else Total(parts[..|parts| - 1]) + |parts[|parts| - 1]|
  }

  lemma {:induction false} TotalAppend(a: seq<string>, b: seq<string>)
    ensures Total(a + b) == Total(a) + Total(b)
  {
    if |b| == 0 {
      assert a + b == a;
    } else {
      var n := |b| - 1;
      assert (a + b)[..|a + b| - 1] == a + b[..n];
      TotalAppend(a, b[..n]);
    }
  }

  lemma {:induction false} JoinLength(parts: seq<string>)
    requires |parts| > 0
    ensures |Join(parts, "; ")| == Total(parts) + 2 * (|parts| - 1)
  {
    if |parts| > 1 {
      JoinLength(parts[1..]);
      assert parts == [parts[0]] + parts[1..];
      TotalAppend([parts[0]], parts[1..]);
    }
    assert [parts[0]][..0] == [];
    assert Total([parts[0]]) == |parts[0]|;
  }

  lemma {:induction false} ItemCount(m: Directives, keys: seq<string>)
    ensures |Items(m, keys)| == |keys|
  {
    if |keys| > 0 {
      ItemCount(m, keys[..|keys| - 1]);
    }
  }

  /** All items of a directive map, in order. */
  ghost function AllItemsOf(m: Directives): seq<string> {
    Items(m, SortedKeys(m.Keys))
  }

  /** One more directive is one more item. */
  lemma MoreItems(m: Directives, x: string, vs: seq<string>)
    requires x !in m
    ensures var more := m[x := vs];
      && |AllItemsOf(more)| == |AllItemsOf(m)| + 1
      && Total(AllItemsOf(more)) == Total(AllItemsOf(m)) + |Item(more, x)|
  {
    var more, keys := m[x := vs], SortedKeys(m.Keys);
    var i := SearchStrings(keys, x);
    assert more.Keys == m.Keys + {x};
    SortedWith(m.Keys, x, keys, SortedKeys(more.Keys));
    SortedOmits(m.Keys, x);
    MoreItemsAt(m, more, x, keys, i);
  }

  lemma MoreItemsAt(m: Directives, more: Directives, x: string, keys: seq<string>, i: nat)
    requires x !in keys && i <= |keys| && forall k :: k != x ==> Values(m, k) == Values(more, k)
    ensures var all := keys[..i] + [x] + keys[i..];
      && |Items(more, all)| == |Items(m, keys)| + 1
      && Total(Items(more, all)) == Total(Items(m, keys)) + |Item(more, x)|
  {
    ItemsAround(m, more, x, keys, i);
    TotalAround(Items(m, keys[..i]), Item(more, x), Items(m, keys[i..]));
    assert keys[..i] + keys[i..] == keys;
    ItemsAppend(m, keys[..i], keys[i..]);
  }

  lemma ItemsAround(m: Directives, more: Directives, x: string, keys: seq<string>, i: nat)
    requires x !in keys && i <= |keys| && forall k :: k != x ==> Values(m, k) == Values(more, k)
    ensures Items(more, keys[..i] + [x] + keys[i..]) == Items(m, keys[..i]) + [Item(more, x)] + Items(m, keys[i..])
  {
    ItemsAppend(more, keys[..i] + [x], keys[i..]);
    ItemsAppend(more, keys[..i], [x]);
    assert [x][..0] == [] && Items(more, [x]) == [Item(more, x)];
    ItemsOthers(m, more, x, keys[..i]);
    ItemsOthers(m, more, x, keys[i..]);
  }

  lemma TotalAround(a: seq<string>, x: string, b: seq<string>)
    ensures Total(a + [x] + b) == Total(a + b) + |x|
  {
    TotalAppend(a + [x], b);
    TotalAppend(a, [x]);
    TotalAppend(a, b);
    assert [x][..0] == [];
    assert Total([x]) == |x|;
  }

  lemma HeaderLength(m: Directives, script: string, reportTo: string, nonce: string)
    ensures var items := AllItemsOf(WithNonce(m, script, nonce)) + ReportItem(reportTo);
      |items| > 0 && |PlainHeader(m, script, reportTo, nonce)| == Total(items) + 2 * (|items| - 1)
  {
    var all := WithNonce(m, script, nonce);
    SortedKeysMembers(all.Keys);
    assert script in SortedKeys(all.Keys);
    ItemCount(all, SortedKeys(all.Keys));
    JoinLength(AllItemsOf(all) + ReportItem(reportTo));
  }

  /** A directive of its own makes the header longer by its item and a separator. */
  lemma LongerByItem(m: Directives, script: string, reportTo: string, nonce: string, x: string, vs: seq<string>)
    requires x !in m && x != script
    ensures |PlainHeader(m[x := vs], script, reportTo, nonce)|
         == |PlainHeader(m, script, reportTo, nonce)| + 2 + |x| + 1 + |Join(vs, " ")|
  {
    var all := WithNonce(m, script, nonce);
    assert WithNonce(m[x := vs], script, nonce) == all[x := vs];
    MoreItems(all, x, vs);
    HeaderLength(m, script, reportTo, nonce);
    HeaderLength(m[x := vs], script, reportTo, nonce);
    TotalAppend(AllItemsOf(all), ReportItem(reportTo));
    TotalAppend(AllItemsOf(all[x := vs]), ReportItem(reportTo));
  }

  /** A longer report target makes the header longer. */
  lemma LongerReport(m: Directives, script: string, r: string, q: string, nonce: string)
    requires 0 < |r| < |q|
    ensures |PlainHeader(m, script, r, nonce)| < |PlainHeader(m, script, q, nonce)|
  {
    var items := AllItemsOf(WithNonce(m, script, nonce));
    HeaderLength(m, script, r, nonce);
    HeaderLength(m, script, q, nonce);
    TotalAround(items, "report-to " + r, []);
    TotalAround(items, "report-to " + q, []);
    assert items + ["report-to " + r] + [] == items + ReportItem(r);
    assert items + ["report-to " + q] + [] == items + ReportItem(q);
    assert items + [] == items;
  }

  // -------------------------------------------------------------- fingerprints

  /** One directive, and a report target. */
  function One(k: string, vs: seq<string>, reportTo: string): Config {
    Config(1, map[k := vs], reportTo)
  }

  lemma OneKey(k: string, vs: seq<string>, reportTo: string)
    ensures CacheKey(One(k, vs, reportTo))
         == [ModeByte(1), '|'] + (reportTo + ['|'] + (k + ['='] + (Join(vs, [',']) + [';'])))
  {
    var d := One(k, vs, reportTo).directives;
    assert d.Keys == {k};
    LoneKey(k);
    assert [k][1..] == [];
    assert Entries(d, [k]) == Entry(d, k) + "";
  }

  lemma MergedOne(defaults: Directives, k: string, vs: seq<string>)
    requires k !in defaults
    ensures Merged(defaults, map[k := vs]) == if vs == [] then defaults else defaults[k := vs]
  {
  }

  /** A directive name that is no default: with no values it changes nothing, else it lengthens the header. */
  lemma OneHeader(k: string, vs: seq<string>, reportTo: string, nonce: string)
    requires k !in DefaultDirectives() && k != SCRIPT_SRC
    ensures |FreshHeader(One(k, vs, reportTo), nonce)|
         == |PlainHeader(DefaultDirectives(), SCRIPT_SRC, reportTo, nonce)|
            + if vs == [] then 0 else 2 + |k| + 1 + |Join(vs, " ")|
  {
    MergedOne(DefaultDirectives(), k, vs);
    LongerByItem(DefaultDirectives(), SCRIPT_SRC, reportTo, nonce, k, vs);
  }

  /** One fingerprint, two headers, and the second config is a good one. */
  ghost predicate Confused(a: Config, b: Config, nonce: string) {
    Good(b) && !Good(a) && CacheKey(a) == CacheKey(b) && FreshHeader(a, nonce) != FreshHeader(b, nonce)
  }

  /** Short names are not among the defaults. */
  lemma ShortIsNew(k: string)
    requires |k| < 7
    ensures k !in DefaultDirectives() && k != SCRIPT_SRC
  {
  }

  lemma OneGood(k: string, vs: seq<string>, reportTo: string)
    ensures Good(One(k, vs, reportTo)) <==> '|' !in reportTo && '=' !in k && GoodValues(vs)
  {
    assert GoodDirective(map[k := vs], k) <==> '=' !in k && GoodValues(vs);
  }

  /** Two one-directive configs whose fingerprints spell the same and whose headers differ in length. */
  lemma OnesConfuse(k: string, vs: seq<string>, r: string, k': string, vs': seq<string>, r': string, nonce: string)
    requires '|' in r || '=' in k || !GoodValues(vs)
    requires '|' !in r' && '=' !in k' && GoodValues(vs')
    requires r + ['|'] + (k + ['='] + (Join(vs, [',']) + [';']))
          == r' + ['|'] + (k' + ['='] + (Join(vs', [',']) + [';']))
    requires |FreshHeader(One(k, vs, r), nonce)| != |FreshHeader(One(k', vs', r'), nonce)|
    ensures Confused(One(k, vs, r), One(k', vs', r'), nonce)
  {
    OneKey(k, vs, r);
    OneKey(k', vs', r');
    OneGood(k, vs, r);
    OneGood(k', vs', r');
  }

  /** An empty value. */
  lemma EmptyValueConfuses(nonce: string)
    ensures Confused(One("p", [""], ""), One("p", [], ""), nonce)
  {
    ShortIsNew("p");
    OneHeader("p", [""], "", nonce);
    OneHeader("p", [], "", nonce);
    assert "" in [""];
    OnesConfuse("p", [""], "", "p", [], "", nonce);
  }

  /** "=" in a name. */
  lemma EqualsInNameConfuses(nonce: string)
    ensures Confused(One("p=x", [], ""), One("p", ["x="], ""), nonce)
  {
    ShortIsNew("p");
    ShortIsNew("p=x");
    OneHeader("p=x", [], "", nonce);
    OneHeader("p", ["x="], "", nonce);
    EqualsSpelling();
    OnesConfuse("p=x", [], "", "p", ["x="], "", nonce);
  }

  lemma EqualsSpelling()
    ensures "" + ['|'] + ("p=x" + ['='] + (Join([], [',']) + [';']))
         == "" + ['|'] + ("p" + ['='] + (Join(["x="], [',']) + [';']))
    ensures '=' in "p=x" && GoodValues(["x="])
  {
    assert "p=x"[1] == '=';
    assert "p=x" + ['='] + ("" + [';']) == "p" + ['='] + ("x=" + [';']);
  }

  /** "|" in the report target. */
  lemma BarInReportConfuses(nonce: string)
    ensures Confused(One("y", [], "r|x"), One("x|y", [], "r"), nonce)
  {
    ShortIsNew("y");
    ShortIsNew("x|y");
    OneHeader("y", [], "r|x", nonce);
    OneHeader("x|y", [], "r", nonce);
    LongerReport(DefaultDirectives(), SCRIPT_SRC, "r", "r|x", nonce);
    BarSpelling();
    OnesConfuse("y", [], "r|x", "x|y", [], "r", nonce);
  }

  lemma BarSpelling()
    ensures "r|x" + ['|'] + ("y" + ['='] + (Join([], [',']) + [';']))
         == "r" + ['|'] + ("x|y" + ['='] + (Join([], [',']) + [';']))
    ensures '|' in "r|x" && '|' !in "r" && '=' !in "x|y" && GoodValues([])
  {
    assert "r|x"[1] == '|';
    assert "r|x" + ['|'] + ("y" + ['='] + ("" + [';'])) == "r" + ['|'] + ("x|y" + ['='] + ("" + [';']));
  }

  /** ";" in a value; the good config has a second directive, without values. */
  function Two(): Config { Config(1, map["p" := ["a"], "q" := []], "") }

  lemma TwoSorted()
    ensures SortedKeys({"p", "q"}) == ["p", "q"]
  {
    SortedKeysSorted({"p", "q"});
    assert multiset({"p", "q"}) == multiset(["p", "q"]);
    assert Le("p", "q") && ["p", "q"][1..] == ["q"];
    SortedIsCanonical(SortedKeys({"p", "q"}), ["p", "q"]);
  }

  lemma TwoKey()
    ensures CacheKey(Two()) == [ModeByte(1), '|'] + ("" + ['|'] + "p=a;q=;")
  {
    var d := Two().directives;
    assert d.Keys == {"p", "q"};
    TwoSorted();
    assert ["p", "q"][1..] == ["q"] && ["q"][1..] == [];
    assert Entry(d, "p") == "p=a;" && Entry(d, "q") == "q=;";
    assert Entries(d, ["q"]) == "q=;" + "";
    assert Entries(d, ["p", "q"]) == "p=a;" + "q=;";
  }

  lemma TwoMerged()
    ensures Merged(DefaultDirectives(), Two().directives) == Merged(DefaultDirectives(), map["p" := ["a"]])
  {
    ShortIsNew("q");
    MergedWithout(DefaultDirectives(), "p", ["a"], "q");
  }

  lemma MergedWithout(defaults: Directives, k: string, vs: seq<string>, x: string)
    requires x !in defaults && x != k
    ensures Merged(defaults, map[k := vs, x := []]) == Merged(defaults, map[k := vs])
  {
  }

  lemma TwoGood()
    ensures Good(Two())
  {
    var d := Two().directives;
    assert GoodDirective(d, "p") && GoodDirective(d, "q");
  }

  lemma SemicolonBad()
    ensures !Good(One("p", ["a;q="], ""))
  {
    assert "a;q="[1] == ';' && "a;q=" in ["a;q="];
    OneGood("p", ["a;q="], "");
  }

  lemma SemicolonKey()
    ensures CacheKey(One("p", ["a;q="], "")) == CacheKey(Two())
  {
    OneKey("p", ["a;q="], "");
    TwoKey();
    assert "p" + ['='] + ("a;q=" + [';']) == "p=a;q=;";
  }

  lemma SemicolonInValueConfuses(nonce: string)
    ensures Confused(One("p", ["a;q="], ""), Two(), nonce)
  {
    TwoGood();
    SemicolonBad();
    SemicolonKey();
    ShortIsNew("p");
    TwoMerged();
    OneHeader("p", ["a;q="], "", nonce);
    OneHeader("p", ["a"], "", nonce);
    assert FreshHeader(Two(), nonce) == FreshHeader(One("p", ["a"], ""), nonce);
  }
}
