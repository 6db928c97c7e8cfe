/**
 The Content-Security-Policy header: a prefix and a suffix composed once around
 the nonce, and a cache of such templates keyed by a fingerprint of the config.
 */
module Csp {
  import opened Text
  import opened Sorting

  type Directives = map<string, seq<string>>

  datatype Config = Config(mode: int, directives: Directives, reportTo: string)

  datatype Template = Template(prefix: string, suffix: string)

  const SCRIPT_SRC := "script-src"

  function DefaultDirectives(): Directives {
    map[
      "default-src" := ["'self'"],
      "script-src" := ["'strict-dynamic'"],
      "style-src" := ["'self'", "'unsafe-inline'"],
      "img-src" := ["'self'", "data:"],
      "connect-src" := ["'self'"],
      "base-uri" := ["'self'"],
      "form-action" := ["'self'"]]
  }

  // ------------------------------------------------------------- sorted keys

  /** The keys in order. */
  ghost function SortedKeys(keys: set<string>): seq<string>
    decreases |keys|
  {
    if keys == {} then []
    else
      var k :| k in keys;
      Insert(k, SortedKeys(keys - {k}))
  }

  lemma {:induction false} SortedKeysSorted(keys: set<string>)
    ensures Sorted(SortedKeys(keys)) && multiset(SortedKeys(keys)) == multiset(keys)
    decreases |keys|
  {
    if keys != {} {
      var k :| k in keys && SortedKeys(keys) == Insert(k, SortedKeys(keys - {k}));
      SortedKeysSorted(keys - {k});
      InsertSorted(k, SortedKeys(keys - {k}));
      assert multiset(keys) == multiset(keys - {k}) + multiset{k};
    }
  }

  /** Collecting a map's keys in whatever order it gives them, then sorting. */
  method CollectKeys(m: Directives) returns (keys: seq<string>)
    ensures keys == SortedKeys(m.Keys)
  {
    keys := [];
    var todo := m.Keys;
    while todo != {}
      invariant todo <= m.Keys && multiset(keys) == multiset(m.Keys - todo)
      decreases |todo|
    {
      var k :| k in todo;
      keys := keys + [k];
      todo := todo - {k};
      assert m.Keys - todo == (m.Keys - (todo + {k})) + {k};
    }
    assert m.Keys - todo == m.Keys;
    SortIsSorted(keys);
    SortedKeysSorted(m.Keys);
    SortedIsCanonical(SortStrings(keys), SortedKeys(m.Keys));
    keys := SortStrings(keys);
  }

  // ---------------------------------------------------------------- merging

  /** The directive list of a name; none is the empty list. */
  function Values(m: Directives, k: string): seq<string> {
    if k in m then m[k] else []
  }

  /** A config's directives over the defaults; an empty list takes a directive out. */
  function Merged(defaults: Directives, over: Directives): Directives {
    map k | k in defaults.Keys + over.Keys && (k in over ==> over[k] != []) ::
      if k in over then over[k] else defaults[k]
  }

  /** One override: an empty list takes the directive out. */
  function Override(m: Directives, over: Directives, k: string): Directives
    requires k in over
  {
    if |over[k]| == 0 then m - {k} else m[k := over[k]]
  }

  /** `result` says what the directives are once these overrides have been met. */
  ghost predicate FollowsOverrides(over: Directives, result: set<string> -> Directives) {
    forall done, k :: FollowsOne(over, result, done, k)
  }

  ghost predicate FollowsOne(over: Directives, result: set<string> -> Directives, done: set<string>, k: string) {
    k in over && k !in done ==> result(done + {k}) == Override(result(done), over, k)
  }

  /** The loop over the overrides, in whatever order. */
  method ApplyOverrides(m0: Directives, over: Directives, ghost result: set<string> -> Directives)
    returns (m: Directives)
    requires m0 == result({}) && FollowsOverrides(over, result)
    ensures m == result(over.Keys)
  {
    m := m0;
    var todo := over.Keys;
    ghost var done: set<string> := {};
    while todo != {}
      invariant todo <= over.Keys && done == over.Keys - todo && m == result(done)
      decreases |todo|
    {
      var k :| k in todo;
      assert FollowsOne(over, result, done, k);
      m := Override(m, over, k);
      todo := todo - {k};
      done := done + {k};
    }
    assert done == over.Keys;
  }

  lemma MergeFollows(defaults: Directives, over: Directives)
    ensures FollowsOverrides(over, done => Merged(defaults, Seen(over, done)))
  {
    var result := done => Merged(defaults, Seen(over, done));
    forall done, k
      ensures FollowsOne(over, result, done, k)
    {
      if k in over && k !in done {
        MergeOne(defaults, over, done, k);
      }
    }
  }

  lemma MergeEnds(defaults: Directives, over: Directives)
    ensures Merged(defaults, Seen(over, {})) == defaults
    ensures Merged(defaults, Seen(over, over.Keys)) == Merged(defaults, over)
  {
    assert Seen(over, over.Keys) == over;
  }

  method Merge(defaults: Directives, over: Directives) returns (m: Directives)
    ensures m == Merged(defaults, over)
  {
    MergeFollows(defaults, over);
    MergeEnds(defaults, over);
    m := ApplyOverrides(defaults, over, done => Merged(defaults, Seen(over, done)));
  }

  /** The overrides met so far. */
  ghost function Seen(over: Directives, done: set<string>): Directives {
    map k | k in over && k in done :: over[k]
  }

  lemma MergeOne(defaults: Directives, over: Directives, done: set<string>, k: string)
    requires k in over && k !in done
    ensures var m := Merged(defaults, Seen(over, done));
      Merged(defaults, Seen(over, done + {k})) == if |over[k]| == 0 then m - {k} else m[k := over[k]]
  {
  }

  /** Directive by directive: an override with values wins, one without takes the directive out. */
  lemma MergeExactly(defaults: Directives, over: Directives, k: string)
    ensures Values(Merged(defaults, over), k) == if k in over then over[k] else Values(defaults, k)
    ensures k in Merged(defaults, over) <==> (k in over && |over[k]| > 0) || (k !in over && k in defaults)
  {
  }

  // ------------------------------------------------------------ the plain header

  function Item(m: Directives, k: string): string {
    k + " " + Join(Values(m, k), " ")
  }

  function Items(m: Directives, keys: seq<string>): seq<string> {
    if |keys| == 0 then [] else Items(m, keys[..|keys| - 1]) + [Item(m, keys[|keys| - 1])]
  }

  function ReportItem(reportTo: string): seq<string> {
    if reportTo == "" then [] else ["report-to " + reportTo]
  }

  /** script-src with the nonce in front of whatever else it lists. */
  function WithNonce(m: Directives, script: string, nonce: string): Directives {
    m[script := ["'nonce-" + nonce + "'"] + Values(m, script)]
  }

  /** The header as one would write it: sort all directives, script-src among them, and join them. */
  ghost function PlainHeader(m: Directives, script: string, reportTo: string, nonce: string): string {
    var all := WithNonce(m, script, nonce);
    Join(Items(all, SortedKeys(all.Keys)) + ReportItem(reportTo), "; ")
  }

  // ------------------------------------------------------------ the spliced header

  /** Every piece followed by the separator. */
  function Trailing(parts: seq<string>, sep: string): string {
    if |parts| == 0 then "" else Trailing(parts[..|parts| - 1], sep) + parts[|parts| - 1] + sep
  }

  /** Every piece preceded by the separator. */
  function Leading(parts: seq<string>, sep: string): string {
    if |parts| == 0 then "" else Leading(parts[..|parts| - 1], sep) + sep + parts[|parts| - 1]
  }

  /** sort.SearchStrings on a sorted list: the first place the string could stand. */
  function SearchStrings(keys: seq<string>, x: string): (i: nat)
    ensures i <= |keys|
  {
    if |keys| == 0 || Le(x, keys[0]) then 0 else 1 + SearchStrings(keys[1..], x)
  }

  function Prefix(rest: Directives, keys: seq<string>, i: nat, script: string): string
    requires i <= |keys|
  {
    Trailing(Items(rest, keys[..i]), "; ") + (script + " 'nonce-")
  }

  function Suffix(rest: Directives, keys: seq<string>, i: nat, scripts: seq<string>, reportTo: string): string
    requires i <= |keys|
  {
    "'" + (if |scripts| > 0 then " " + Join(scripts, " ") else "")
      + Leading(Items(rest, keys[i..]) + ReportItem(reportTo), "; ")
  }

  // ---------------------------------------------------- splicing is sorting it all

  lemma {:induction false} InsertAtSearch(x: string, keys: seq<string>)
    ensures var i := SearchStrings(keys, x); Insert(x, keys) == keys[..i] + [x] + keys[i..]
  {
    if |keys| > 0 && !Le(x, keys[0]) {
      InsertAtSearch(x, keys[1..]);
      var j := SearchStrings(keys[1..], x);
      assert keys[1..][..j] == keys[1..j + 1] && keys[1..][j..] == keys[j + 1..];
      assert keys[..j + 1] == [keys[0]] + keys[1..j + 1];
    }
  }

  lemma InsertIsSorting(keys: seq<string>, all: seq<string>, x: string)
    requires Sorted(keys) && Sorted(all) && multiset(all) == multiset(keys) + multiset{x}
    ensures all == Insert(x, keys)
  {
    InsertSorted(x, keys);
    SortedIsCanonical(all, Insert(x, keys));
  }

  /** The sorted keys with one more key among them. */
  lemma SortedWith(rest: set<string>, x: string, keys: seq<string>, all: seq<string>)
    requires x !in rest && keys == SortedKeys(rest) && all == SortedKeys(rest + {x})
    ensures var i := SearchStrings(keys, x); all == keys[..i] + [x] + keys[i..]
  {
    SortedKeysSorted(rest);
    SortedKeysSorted(rest + {x});
    assert multiset(rest + {x}) == multiset(rest) + multiset{x};
    InsertIsSorting(keys, all, x);
    InsertAtSearch(x, keys);
  }

  lemma {:induction false} JoinLeading(x: string, b: seq<string>, sep: string)
    ensures Join([x] + b, sep) == x + Leading(b, sep)
  {
    if |b| > 0 {
      var n := |b| - 1;
      JoinLeading(x, b[..n], sep);
      assert [x] + b == ([x] + b[..n]) + [b[n]];
      JoinSnoc([x] + b[..n], b[n], sep);
    }
  }

  lemma {:induction false} JoinAround(a: seq<string>, x: string, b: seq<string>, sep: string)
    ensures Join(a + [x] + b, sep) == Trailing(a, sep) + x + Leading(b, sep)
  {
    if |a| == 0 {
      assert a + [x] + b == [x] + b;
      JoinLeading(x, b, sep);
    } else {
      var n := |a| - 1;
      JoinAround(a[..n], a[n], [x] + b, sep);
      assert a + [x] + b == a[..n] + [a[n]] + ([x] + b);
      LeadingCons(x, b, sep);
      Shift(Trailing(a[..n], sep), a[n], sep, x, Leading(b, sep));
    }
  }

  lemma Shift(t: string, y: string, sep: string, x: string, l: string)
    ensures t + y + (sep + x + l) == (t + y + sep) + x + l
  {
  }

  lemma LeadingSnoc(b: seq<string>, x: string, sep: string)
    ensures Leading(b + [x], sep) == Leading(b, sep) + (sep + x)
  {
    assert (b + [x])[..|b|] == b;
  }

  lemma {:induction false} LeadingCons(x: string, b: seq<string>, sep: string)
    ensures Leading([x] + b, sep) == sep + x + Leading(b, sep)
  {
    if |b| == 0 {
      assert [x] + b == [] + [x];
      LeadingSnoc([], x, sep);
    } else {
      var n := |b| - 1;
      LeadingCons(x, b[..n], sep);
      assert [x] + b == ([x] + b[..n]) + [b[n]] && b == b[..n] + [b[n]];
      LeadingSnoc([x] + b[..n], b[n], sep);
      LeadingSnoc(b[..n], b[n], sep);
      Associates(sep + x, Leading(b[..n], sep), sep + b[n]);
    }
  }

  lemma {:induction false} ItemsAppend(m: Directives, a: seq<string>, b: seq<string>)
    ensures Items(m, a + b) == Items(m, a) + Items(m, b)
  {
    if |b| == 0 {
      assert a + b == a;
    } else {
      var n := |b| - 1;
      assert (a + b)[..|a + b| - 1] == a + b[..n];
      ItemsAppend(m, a, b[..n]);
    }
  }

  /** Directives that differ only in script-src give the same items for the other keys. */
  lemma {:induction false} ItemsOthers(m: Directives, all: Directives, script: string, keys: seq<string>)
    requires script !in keys && forall k :: k != script ==> Values(m, k) == Values(all, k)
    ensures Items(m, keys) == Items(all, keys)
  {
    if |keys| > 0 {
      ItemsOthers(m, all, script, keys[..|keys| - 1]);
      assert keys[|keys| - 1] in keys;
    }
  }

  lemma ScriptItem(m: Directives, script: string, nonce: string)
    ensures var scripts := Values(m, script);
      Item(WithNonce(m, script, nonce), script)
      == (script + " 'nonce-") + nonce + ("'" + (if |scripts| > 0 then " " + Join(scripts, " ") else ""))
  {
  }

  lemma SortedOmits(keys: set<string>, x: string)
    requires x !in keys
    ensures x !in SortedKeys(keys)
  {
    SortedKeysSorted(keys);
    assert x in SortedKeys(keys) ==> x in multiset(SortedKeys(keys));
  }

  /** The items of all directives: those before script-src, script-src itself, those behind it. */
  lemma AllItems(m: Directives, script: string, nonce: string, keys: seq<string>, i: nat)
    requires script !in keys && i <= |keys|
    ensures var all, rest := WithNonce(m, script, nonce), m - {script};
      Items(all, keys[..i] + [script] + keys[i..])
      == Items(rest, keys[..i]) + [Item(all, script)] + Items(rest, keys[i..])
  {
    var all, rest := WithNonce(m, script, nonce), m - {script};
    ItemsAppend(all, keys[..i] + [script], keys[i..]);
    ItemsAppend(all, keys[..i], [script]);
    assert [script][..0] == [] && Items(all, [script]) == [Item(all, script)];
    ItemsOthers(rest, all, script, keys[..i]);
    ItemsOthers(rest, all, script, keys[i..]);
  }

  function Build(t: Template, nonce: string): string {
    t.prefix + nonce + t.suffix
  }

  /** The template of merged directives: everything but script-src sorted, cut where script-src belongs. */
  ghost function TemplateOf(m: Directives, script: string, reportTo: string): Template {
    var rest := m - {script};
    var keys := SortedKeys(rest.Keys);
    var i := SearchStrings(keys, script);
    Template(Prefix(rest, keys, i, script), Suffix(rest, keys, i, Values(m, script), reportTo))
  }

  lemma PlainPieces(m: Directives, script: string, reportTo: string, nonce: string)
    ensures var rest := m - {script}; var keys := SortedKeys(rest.Keys); var i := SearchStrings(keys, script);
      PlainHeader(m, script, reportTo, nonce)
      == Trailing(Items(rest, keys[..i]), "; ")
         + Item(WithNonce(m, script, nonce), script)
         + Leading(Items(rest, keys[i..]) + ReportItem(reportTo), "; ")
  {
    var rest, all := m - {script}, WithNonce(m, script, nonce);
    var keys := SortedKeys(rest.Keys);
    var i := SearchStrings(keys, script);
    assert all.Keys == rest.Keys + {script};
    SortedWith(rest.Keys, script, keys, SortedKeys(all.Keys));
    SortedOmits(rest.Keys, script);
    AllItems(m, script, nonce, keys, i);
    JoinPieces(Items(rest, keys[..i]), Item(all, script), Items(rest, keys[i..]), ReportItem(reportTo));
  }

  lemma Regroup(a: string, p: string, n: string, q: string, l: string)
    ensures (a + p) + n + (q + l) == a + (p + n + q) + l
  {
  }

  /** Splicing the nonce into the template gives the header written plainly. */
  lemma SplicedIsPlain(m: Directives, script: string, reportTo: string, nonce: string)
    ensures Build(TemplateOf(m, script, reportTo), nonce) == PlainHeader(m, script, reportTo, nonce)
  {
    var rest, scripts := m - {script}, Values(m, script);
    var keys := SortedKeys(rest.Keys);
    var i := SearchStrings(keys, script);
    PlainPieces(m, script, reportTo, nonce);
    ScriptItem(m, script, nonce);
    Regroup(Trailing(Items(rest, keys[..i]), "; "), script + " 'nonce-", nonce,
            "'" + (if |scripts| > 0 then " " + Join(scripts, " ") else ""),
            Leading(Items(rest, keys[i..]) + ReportItem(reportTo), "; "));
  }

  lemma JoinPieces(a: seq<string>, x: string, b: seq<string>, c: seq<string>)
    ensures Join(a + [x] + b + c, "; ") == Trailing(a, "; ") + x + Leading(b + c, "; ")
  {
    assert a + [x] + b + c == a + [x] + (b + c);
    JoinAround(a, x, b + c, "; ");
  }

  // -------------------------------------------------------------- composing it

  lemma ItemsNext(m: Directives, keys: seq<string>, a: nat, i: nat)
    requires a <= i < |keys|
    ensures Items(m, keys[a..i + 1]) == Items(m, keys[a..i]) + [Item(m, keys[i])]
  {
    assert keys[a..i + 1][..i - a] == keys[a..i];
  }

  /** The directives before script-src. */
  method WritePrefix(rest: Directives, keys: seq<string>, n: nat, script: string) returns (b: string)
    requires n <= |keys|
    ensures b == Prefix(rest, keys, n, script)
  {
    b := "";
    for i := 0 to n
      invariant b == Trailing(Items(rest, keys[0..i]), "; ")
    {
      ItemsNext(rest, keys, 0, i);
      b := b + Item(rest, keys[i]) + "; ";
    }
    assert keys[0..n] == keys[..n];
    b := b + (script + " 'nonce-");
  }

  /** The directives behind script-src. */
  method WriteBehind(rest: Directives, keys: seq<string>, n: nat) returns (b: string)
    requires n <= |keys|
    ensures b == Leading(Items(rest, keys[n..]), "; ")
  {
    b := "";
    for i := n to |keys|
      invariant b == Leading(Items(rest, keys[n..i]), "; ")
    {
      ItemsNext(rest, keys, n, i);
      LeadingSnoc(Items(rest, keys[n..i]), Item(rest, keys[i]), "; ");
      b := b + ("; " + Item(rest, keys[i]));
    }
    assert keys[n..|keys|] == keys[n..];
  }

  /** The rest of script-src, the directives behind it, and where to report to. */
  method WriteSuffix(rest: Directives, keys: seq<string>, n: nat, scripts: seq<string>, reportTo: string)
    returns (b: string)
    requires n <= |keys|
    ensures b == Suffix(rest, keys, n, scripts, reportTo)
  {
    var head := "'" + (if |scripts| > 0 then " " + Join(scripts, " ") else "");
    b := WriteBehind(rest, keys, n);
    b := WriteReport(b, Items(rest, keys[n..]), reportTo);
    b := head + b;
  }

  method WriteReport(b: string, ghost items: seq<string>, reportTo: string) returns (b': string)
    requires b == Leading(items, "; ")
    ensures b' == Leading(items + ReportItem(reportTo), "; ")
  {
    assert items + [] == items;
    b' := b;
    if reportTo != "" {
      ghost var all := items + ["report-to " + reportTo];
      assert all[..|items|] == items;
      b' := b + "; " + ("report-to " + reportTo);
    }
  }

  /** composeCSP after merging. */
  method Compose(merged: Directives, script: string, reportTo: string) returns (t: Template)
    ensures t == TemplateOf(merged, script, reportTo)
  {
    var scripts := Values(merged, script);
    var rest := merged - {script};
    var keys := CollectKeys(rest);
    var i := SearchStrings(keys, script);
    var prefix := WritePrefix(rest, keys, i, script);
    var suffix := WriteSuffix(rest, keys, i, scripts, reportTo);
    t := Template(prefix, suffix);
  }

  // ----------------------------------------------------------- the default policy

  lemma SortedKeysAre(keys: set<string>, list: seq<string>)
    requires Sorted(list) && multiset(list) == multiset(keys)
    ensures SortedKeys(keys) == list
  {
    SortedKeysSorted(keys);
    SortedIsCanonical(SortedKeys(keys), list);
  }

  const DEFAULT_KEYS: seq<string> :=
    ["base-uri", "connect-src", "default-src", "form-action", "img-src", "script-src", "style-src"]

  lemma DefaultKeys()
    ensures SortedKeys(DefaultDirectives().Keys) == DEFAULT_KEYS
  {
    var ks := DEFAULT_KEYS;
    assert Le(ks[5][1..], ks[6][1..]) && Le(ks[5], ks[6]);
    assert Sorted(ks[5..]);
    assert ks[4..][1..] == ks[5..] && Sorted(ks[4..]);
    assert ks[3..][1..] == ks[4..] && Sorted(ks[3..]);
    assert ks[2..][1..] == ks[3..] && Sorted(ks[2..]);
    assert ks[1..][1..] == ks[2..] && Sorted(ks[1..]);
    DefaultKeySet();
    SortedKeysAre(DefaultDirectives().Keys, ks);
  }

  lemma {:induction false} OnceEach(list: seq<string>, keys: set<string>)
    requires NoRepeat(list) && forall k :: k in list <==> k in keys
    ensures multiset(list) == multiset(keys)
    decreases |list|
  {
    if |list| == 0 {
      assert keys == {};
    } else {
      var front, x := list[..|list| - 1], list[|list| - 1];
      assert list == front + [x] && x !in front;
      OnceEach(front, keys - {x});
      OneMore(front, x, keys);
    }
  }

  lemma OneMore(front: seq<string>, x: string, keys: set<string>)
    requires x in keys && multiset(front) == multiset(keys - {x})
    ensures multiset(front + [x]) == multiset(keys)
  {
    assert keys == (keys - {x}) + {x};
  }

  lemma DefaultKeysDiffer()
    ensures NoRepeat(DEFAULT_KEYS)
  {
    var ks := DEFAULT_KEYS;
    assert ks[0][0] == 'b' && ks[1][0] == 'c' && ks[2][0] == 'd' && ks[3][0] == 'f' && ks[4][0] == 'i';
    assert ks[5][1] == 'c' && ks[6][1] == 't' && ks[5][0] == 's' == ks[6][0];
  }

  lemma DefaultKeySet()
    ensures multiset(DEFAULT_KEYS) == multiset(DefaultDirectives().Keys)
  {
    DefaultKeysDiffer();
    OnceEach(DEFAULT_KEYS, DefaultDirectives().Keys);
  }

  lemma {:induction false} ItemsAt(m: Directives, keys: seq<string>)
    ensures |Items(m, keys)| == |keys| && forall i :: 0 <= i < |keys| ==> Items(m, keys)[i] == Item(m, keys[i])
  {
    if |keys| > 0 {
      ItemsAt(m, keys[..|keys| - 1]);
    }
  }

  /** The default policy line by line, in the order of the header. */
  function DefaultLines(nonce: string): seq<(string, seq<string>)> {
    [("base-uri", ["'self'"]),
     ("connect-src", ["'self'"]),
     ("default-src", ["'self'"]),
     ("form-action", ["'self'"]),
     ("img-src", ["'self'", "data:"]),
     ("script-src", ["'nonce-" + nonce + "'", "'strict-dynamic'"]),
     ("style-src", ["'self'", "'unsafe-inline'"])]
  }

  function Lines(ls: seq<(string, seq<string>)>): seq<string> {
    seq(|ls|, i requires 0 <= i < |ls| => ls[i].0 + " " + Join(ls[i].1, " "))
  }

  lemma DefaultLine(nonce: string, i: nat)
    requires i < 7
    ensures DEFAULT_KEYS[i] == DefaultLines(nonce)[i].0
    ensures Values(WithNonce(DefaultDirectives(), SCRIPT_SRC, nonce), DEFAULT_KEYS[i]) == DefaultLines(nonce)[i].1
  {
  }

  lemma DefaultItems(nonce: string)
    ensures Items(WithNonce(DefaultDirectives(), SCRIPT_SRC, nonce), DEFAULT_KEYS) == Lines(DefaultLines(nonce))
  {
    var all := WithNonce(DefaultDirectives(), SCRIPT_SRC, nonce);
    ItemsAt(all, DEFAULT_KEYS);
    forall i | 0 <= i < 7
      ensures Items(all, DEFAULT_KEYS)[i] == Lines(DefaultLines(nonce))[i]
    {
      DefaultLine(nonce, i);
    }
  }

  lemma ItemsJoin(m: Directives, script: string, nonce: string, keys: seq<string>)
    requires keys == SortedKeys(WithNonce(m, script, nonce).Keys)
    ensures PlainHeader(m, script, "", nonce) == Join(Items(WithNonce(m, script, nonce), keys), "; ")
  {
    var items := Items(WithNonce(m, script, nonce), keys);
    assert items + [] == items;
  }

  /** The header of a config that overrides nothing: the default directives in order, the nonce in script-src. */
  lemma DefaultPolicy(nonce: string)
    ensures Build(TemplateOf(DefaultDirectives(), SCRIPT_SRC, ""), nonce) == Join(Lines(DefaultLines(nonce)), "; ")
  {
    var m := DefaultDirectives();
    assert WithNonce(m, SCRIPT_SRC, nonce).Keys == m.Keys;
    SplicedIsPlain(m, SCRIPT_SRC, "", nonce);
    DefaultKeys();
    ItemsJoin(m, SCRIPT_SRC, nonce, DEFAULT_KEYS);
    DefaultItems(nonce);
  }
}
