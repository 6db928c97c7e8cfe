/**
 The template cache in front of the header composition, and when its fingerprint
 keeps different configs apart.
 */
module CspCache {
  import opened Text
  import opened Sorting
  import opened Csp

  // ------------------------------------------------------------ the fingerprint

  function ModeByte(mode: int): char {
    ((48 + mode) % 256) as char
  }

  function Entry(d: Directives, k: string): string {
    k + ['='] + (Join(Values(d, k), [',']) + [';'])
  }

  function Entries(d: Directives, keys: seq<string>): string {
    if |keys| == 0 then "" else Entry(d, keys[0]) + Entries(d, keys[1..])
  }

  /** cspCacheKey. */
  ghost function CacheKey(c: Config): string {
    [ModeByte(c.mode), '|'] + (c.reportTo + ['|'] + Entries(c.directives, SortedKeys(c.directives.Keys)))
  }

  lemma {:induction false} EntriesSnoc(d: Directives, keys: seq<string>, k: string)
    ensures Entries(d, keys + [k]) == Entries(d, keys) + Entry(d, k)
  {
    if |keys| == 0 {
      assert keys + [k] == [k] && [k][1..] == [];
    } else {
      EntriesSnoc(d, keys[1..], k);
      assert (keys + [k])[1..] == keys[1..] + [k];
    }
  }

  /** The values of one directive, comma by comma. */
  method WriteValues(vs: seq<string>) returns (b: string)
    ensures b == Join(vs, [','])
  {
    b := "";
    for i := 0 to |vs|
      invariant b == Join(vs[..i], [','])
    {
      if i > 0 {
        b := b + [','];
        JoinSnoc(vs[..i], vs[i], [',']);
      }
      b := b + vs[i];
      assert vs[..i + 1] == vs[..i] + [vs[i]];
    }
    assert vs[..|vs|] == vs;
  }

  method WriteKey(c: Config) returns (b: string)
    ensures b == CacheKey(c)
  {
    var keys := CollectKeys(c.directives);
    var e := "";
    for i := 0 to |keys|
      invariant e == Entries(c.directives, keys[..i])
    {
      var vs := WriteValues(Values(c.directives, keys[i]));
      e := e + (keys[i] + ['='] + (vs + [';']));
      EntriesSnoc(c.directives, keys[..i], keys[i]);
      assert keys[..i + 1] == keys[..i] + [keys[i]];
    }
    assert keys[..|keys|] == keys;
    b := [ModeByte(c.mode), '|'] + (c.reportTo + ['|'] + e);
  }

  // ------------------------------------------------- when it keeps configs apart

  predicate GoodValues(vs: seq<string>) {
    forall v :: v in vs ==> v != "" && ',' !in v && ';' !in v
  }

  predicate GoodDirective(d: Directives, k: string) {
    '=' !in k && GoodValues(Values(d, k))
  }

  /** Names without '=', values that are not empty and hold no ',' or ';', a report target without '|'. */
  predicate Good(c: Config) {
    '|' !in c.reportTo && forall k :: k in c.directives ==> GoodDirective(c.directives, k)
  }

  lemma CutUnique(a: string, x: string, b: string, y: string, c: char)
    requires c !in a && c !in b && a + [c] + x == b + [c] + y
    ensures a == b && x == y
  {
    IndexByteOf(a, c, x);
    IndexByteOf(b, c, y);
    assert a == (a + [c] + x)[..|a|] && b == (b + [c] + y)[..|b|];
    assert x == (a + [c] + x)[|a| + 1..] && y == (b + [c] + y)[|b| + 1..];
  }

  lemma {:induction false} JoinOmits(vs: seq<string>, c: char)
    requires c != ',' && forall v :: v in vs ==> c !in v
    ensures c !in Join(vs, [','])
  {
    if |vs| > 1 {
      JoinOmits(vs[1..], c);
    }
  }

  lemma JoinEmpty(vs: seq<string>)
    requires GoodValues(vs)
    ensures Join(vs, [',']) == "" <==> vs == []
  {
    if |vs| > 0 {
      assert vs[0] in vs;
    }
  }

  lemma ValuesUnique(vs: seq<string>, ws: seq<string>)
    requires GoodValues(vs) && GoodValues(ws) && Join(vs, [',']) == Join(ws, [','])
    ensures vs == ws
  {
    JoinEmpty(vs);
    JoinEmpty(ws);
    if vs != [] {
      SplitJoin(vs, ',');
      SplitJoin(ws, ',');
    }
  }

  /** One entry and what follows it can be told apart. */
  lemma EntryUnique(d: Directives, j: string, x: string, e: Directives, k: string, y: string)
    requires GoodDirective(d, j) && GoodDirective(e, k)
    requires Entry(d, j) + x == Entry(e, k) + y
    ensures j == k && Values(d, j) == Values(e, k) && x == y
  {
    var vs, ws := Join(Values(d, j), [',']), Join(Values(e, k), [',']);
    assert Entry(d, j) + x == j + ['='] + (vs + [';'] + x);
    assert Entry(e, k) + y == k + ['='] + (ws + [';'] + y);
    CutUnique(j, vs + [';'] + x, k, ws + [';'] + y, '=');
    JoinOmits(Values(d, j), ';');
    JoinOmits(Values(e, k), ';');
    CutUnique(vs, x, ws, y, ';');
    ValuesUnique(Values(d, j), Values(e, k));
  }

  lemma {:induction false} EntriesUnique(d: Directives, js: seq<string>, e: Directives, ks: seq<string>)
    requires forall j :: j in js ==> GoodDirective(d, j)
    requires forall k :: k in ks ==> GoodDirective(e, k)
    requires Entries(d, js) == Entries(e, ks)
    ensures js == ks && forall j :: j in js ==> Values(d, j) == Values(e, j)
  {
    if |js| > 0 && |ks| > 0 {
      assert js[0] in js && ks[0] in ks;
      EntryUnique(d, js[0], Entries(d, js[1..]), e, ks[0], Entries(e, ks[1..]));
      EntriesUnique(d, js[1..], e, ks[1..]);
      assert js == [js[0]] + js[1..] && ks == [ks[0]] + ks[1..];
    }
  }

  lemma SortedKeysMembers(keys: set<string>)
    ensures forall k :: k in SortedKeys(keys) <==> k in keys
  {
    SortedKeysSorted(keys);
    forall k
      ensures k in SortedKeys(keys) <==> k in keys
    {
      assert k in SortedKeys(keys) <==> k in multiset(SortedKeys(keys));
    }
  }

  lemma DirectivesUnique(d: Directives, e: Directives)
    requires forall k :: k in d ==> GoodDirective(d, k)
    requires forall k :: k in e ==> GoodDirective(e, k)
    requires Entries(d, SortedKeys(d.Keys)) == Entries(e, SortedKeys(e.Keys))
    ensures d == e
  {
    SortedKeysMembers(d.Keys);
    SortedKeysMembers(e.Keys);
    EntriesUnique(d, SortedKeys(d.Keys), e, SortedKeys(e.Keys));
    assert forall k :: k in d ==> d[k] == Values(d, k) == Values(e, k) == e[k];
  }

  /** Good configs with the same fingerprint are the same config, but for the mode. */
  lemma KeyUnique(a: Config, b: Config)
    requires Good(a) && Good(b) && CacheKey(a) == CacheKey(b)
    ensures a.reportTo == b.reportTo && a.directives == b.directives
  {
    var x := Entries(a.directives, SortedKeys(a.directives.Keys));
    var y := Entries(b.directives, SortedKeys(b.directives.Keys));
    assert CacheKey(a)[2..] == a.reportTo + ['|'] + x && CacheKey(b)[2..] == b.reportTo + ['|'] + y;
    CutUnique(a.reportTo, x, b.reportTo, y, '|');
    DirectivesUnique(a.directives, b.directives);
  }

  // ------------------------------------------------------------------ the cache

  ghost function FreshTemplate(c: Config): Template {
    TemplateOf(Merged(DefaultDirectives(), c.directives), SCRIPT_SRC, c.reportTo)
  }

  /** The header composed from scratch, the plain way. */
  ghost function FreshHeader(c: Config, nonce: string): string {
    PlainHeader(Merged(DefaultDirectives(), c.directives), SCRIPT_SRC, c.reportTo, nonce)
  }

  lemma TemplateIsFresh(c: Config, nonce: string)
    ensures Build(FreshTemplate(c), nonce) == FreshHeader(c, nonce)
  {
    SplicedIsPlain(Merged(DefaultDirectives(), c.directives), SCRIPT_SRC, c.reportTo, nonce);
  }

  /** NewCSPTemplate. */
  method NewTemplate(c: Config) returns (t: Template)
    ensures t == FreshTemplate(c)
  {
    var merged := Merge(DefaultDirectives(), c.directives);
    t := Compose(merged, SCRIPT_SRC, c.reportTo);
  }

  /** The first config of a history with a fingerprint: the one whose template the cache holds. */
  ghost function FirstWith(history: seq<Config>, key: string): Option<Config> {
    if |history| == 0 then None
    else
      var n := |history| - 1;
      var earlier := FirstWith(history[..n], key);
      if earlier.Some? then earlier else if CacheKey(history[n]) == key then Some(history[n]) else None
  }

  lemma FirstAfter(history: seq<Config>, c: Config, key: string)
    ensures var earlier := FirstWith(history, key);
      FirstWith(history + [c], key)
      == if earlier.Some? then earlier else if CacheKey(c) == key then Some(c) else None
  {
  }

  lemma {:induction false} FirstHasKey(history: seq<Config>, key: string)
    ensures var f := FirstWith(history, key); f.Some? ==> f.value in history && CacheKey(f.value) == key
  {
    if |history| > 0 {
      FirstHasKey(history[..|history| - 1], key);
    }
  }

  /** What a call is answered with: the first config that had its fingerprint, itself if none did. */
  ghost function Served(history: seq<Config>, c: Config): Config {
    match FirstWith(history, CacheKey(c))
    case Some(f) => f
    case None => c
  }

  /** For any history of good configs, a good config is served its own header. */
  lemma ServedIsFresh(history: seq<Config>, c: Config, nonce: string)
    requires Good(c) && forall h :: h in history ==> Good(h)
    ensures FreshHeader(Served(history, c), nonce) == FreshHeader(c, nonce)
  {
    var key := CacheKey(c);
    FirstHasKey(history, key);
    if FirstWith(history, key).Some? {
      KeyUnique(FirstWith(history, key).value, c);
    }
  }

  /** The entry for a fingerprint is the template of the first config that had it. */
  ghost predicate CachedFor(templates: map<string, Template>, history: seq<Config>, key: string) {
    match FirstWith(history, key)
    case Some(f) => key in templates && templates[key] == FreshTemplate(f)
    case None => key !in templates
  }

  lemma CachedNext(templates: map<string, Template>, history: seq<Config>, c: Config, key: string, k: string)
    requires key == CacheKey(c) && CachedFor(templates, history, key) && CachedFor(templates, history, k)
    ensures CachedFor(if key in templates then templates else templates[key := FreshTemplate(c)], history + [c], k)
  {
    FirstAfter(history, c, k);
  }

  ghost predicate AllCached(templates: map<string, Template>, history: seq<Config>) {
    forall key :: CachedFor(templates, history, key)
  }

  lemma AllCachedNext(templates: map<string, Template>, history: seq<Config>, c: Config, key: string)
    requires key == CacheKey(c) && AllCached(templates, history)
    ensures AllCached(if key in templates then templates else templates[key := FreshTemplate(c)], history + [c])
  {
    var after := if key in templates then templates else templates[key := FreshTemplate(c)];
    forall k
      ensures CachedFor(after, history + [c], k)
    {
      assert CachedFor(templates, history, key) && CachedFor(templates, history, k);
      CachedNext(templates, history, c, key, k);
    }
  }

  /** What the cache holds for a config is the template of the config it serves. */
  lemma CachedServed(templates: map<string, Template>, history: seq<Config>, c: Config)
    requires AllCached(templates, history)
    ensures CacheKey(c) in templates <==> FirstWith(history, CacheKey(c)).Some?
    ensures CacheKey(c) in templates ==> templates[CacheKey(c)] == FreshTemplate(Served(history, c))
    ensures CacheKey(c) !in templates ==> Served(history, c) == c
  {
    assert CachedFor(templates, history, CacheKey(c));
  }

  lemma HistoryGrows(history: seq<Config>, others: seq<Config>, i: nat)
    requires i < |others|
    ensures history + others[..i] + [others[i]] == history + others[..i + 1]
  {
    assert others[..i + 1] == others[..i] + [others[i]];
  }

  class TemplateCache {
    var templates: map<string, Template>
    ghost var history: seq<Config>

    ghost predicate Valid()
      reads this
    {
      AllCached(templates, history)
    }

    constructor ()
      ensures Valid() && history == []
    {
      templates, history := map[], [];
    }

    /** LoadOrStore: whatever others did since the first look, the template kept is the first one stored. */
    method LoadOrStore(c: Config, key: string, t: Template) returns (actual: Template)
      requires Valid() && key == CacheKey(c) && t == FreshTemplate(c)
      modifies this
      ensures Valid() && history == old(history) + [c]
      ensures actual == FreshTemplate(Served(old(history), c))
    {
      CachedServed(templates, history, c);
      AllCachedNext(templates, history, c, key);
      if key !in templates {
        templates := templates[key := t];
      }
      actual := templates[key];
      history := history + [c];
    }

    /** Load, when it hits. */
    method LoadHit(ghost c: Config, key: string) returns (cached: Template)
      requires Valid() && key == CacheKey(c) && key in templates
      modifies this`history
      ensures Valid() && history == old(history) + [c]
      ensures cached == FreshTemplate(Served(old(history), c))
    {
      CachedServed(templates, history, c);
      AllCachedNext(templates, history, c, key);
      cached := templates[key];
      history := history + [c];
    }

    /** A whole call that nobody interrupts. */
    method Complete(c: Config) returns (t: Template)
      requires Valid()
      modifies this
      ensures Valid() && history == old(history) + [c]
      ensures t == FreshTemplate(Served(old(history), c))
    {
      var key := WriteKey(c);
      if key in templates {
        t := LoadHit(c, key);
      } else {
        var tpl := NewTemplate(c);
        t := LoadOrStore(c, key, tpl);
      }
    }

    /** The calls that other requests complete in the meantime. */
    method Meanwhile(others: seq<Config>)
      requires Valid()
      modifies this
      ensures Valid() && history == old(history) + others
    {
      for i := 0 to |others|
        invariant Valid() && history == old(history) + others[..i]
      {
        var t := Complete(others[i]);
        HistoryGrows(old(history), others, i);
      }
      assert others[..|others|] == others;
    }

    /**
     BuildCSPHeader, with any calls of other requests between its Load and its LoadOrStore:
     exactly the header of the first config that had this fingerprint when it was looked up.
     */
    method BuildCSPHeader(c: Config, nonce: string, others: seq<Config>) returns (header: string)
      requires Valid()
      modifies this
      ensures Valid()
      ensures var before := if FirstWith(old(history), CacheKey(c)).Some? then old(history) else old(history) + others;
        history == before + [c] && header == FreshHeader(Served(before, c), nonce)
    {
      var key := WriteKey(c);
      CachedServed(templates, history, c);
      if key in templates {
        TemplateIsFresh(Served(history, c), nonce);
        var cached := LoadHit(c, key);
        return Build(cached, nonce);
      }
      var tpl := NewTemplate(c);
      Meanwhile(others);
      TemplateIsFresh(Served(history, c), nonce);
      var actual := LoadOrStore(c, key, tpl);
      return Build(actual, nonce);
    }
  }

  // ----------------------------------------------- a fingerprint two configs share

  /** script-src given one value with a comma in it, or two values. */
  function ScriptConfig(vs: seq<string>): Config {
    Config(1, map[SCRIPT_SRC := vs], "")
  }

  lemma ScriptKey(vs: seq<string>)
    ensures CacheKey(ScriptConfig(vs))
         == [ModeByte(1), '|'] + ("" + ['|'] + (SCRIPT_SRC + ['='] + (Join(vs, [',']) + [';'])))
  {
    var d := ScriptConfig(vs).directives;
    assert d.Keys == {SCRIPT_SRC};
    LoneKey(SCRIPT_SRC);
    assert [SCRIPT_SRC][1..] == [];
    assert Entries(d, [SCRIPT_SRC]) == Entry(d, SCRIPT_SRC) + "";
  }

  lemma LoneKey(k: string)
    ensures SortedKeys({k}) == [k]
  {
  }

  /** Overriding script-src alone: only the values behind the nonce depend on it. */
  lemma ScriptTemplate(defaults: Directives, script: string, vs: seq<string>)
    requires vs != []
    ensures var m := Merged(defaults, map[script := vs]);
      m - {script} == defaults - {script} && Values(m, script) == vs
  {
  }

  lemma SuffixStarts(rest: Directives, keys: seq<string>, i: nat, vs: seq<string>)
    requires i <= |keys| && |Join(vs, " ")| >= 2
    ensures |Suffix(rest, keys, i, vs, "")| >= 4 && Suffix(rest, keys, i, vs, "")[3] == Join(vs, " ")[1]
  {
  }

  lemma TemplatesDiffer(defaults: Directives, script: string)
    ensures var one := TemplateOf(Merged(defaults, map[script := ["a,b"]]), script, "");
      var two := TemplateOf(Merged(defaults, map[script := ["a", "b"]]), script, "");
      one.prefix == two.prefix && |one.suffix| >= 4 && |two.suffix| >= 4
      && one.suffix[3] == ',' && two.suffix[3] == ' '
  {
    ScriptTemplate(defaults, script, ["a,b"]);
    ScriptTemplate(defaults, script, ["a", "b"]);
    var rest := defaults - {script};
    var keys := SortedKeys(rest.Keys);
    var i := SearchStrings(keys, script);
    assert Join(["a", "b"], " ") == "a b" by { assert ["a", "b"][1..] == ["b"]; }
    SuffixStarts(rest, keys, i, ["a,b"]);
    SuffixStarts(rest, keys, i, ["a", "b"]);
  }

  /** Two configs with one fingerprint and different headers: the second is served the first one's. */
  lemma SharedFingerprint(nonce: string)
    ensures var one, two := ScriptConfig(["a,b"]), ScriptConfig(["a", "b"]);
      Served([one], two) == one && FreshHeader(one, nonce) != FreshHeader(two, nonce)
  {
    var one, two := ScriptConfig(["a,b"]), ScriptConfig(["a", "b"]);
    ScriptKey(["a,b"]);
    ScriptKey(["a", "b"]);
    assert Join(["a", "b"], [',']) == "a,b" by { assert ["a", "b"][1..] == ["b"]; }
    FirstAfter([], one, CacheKey(two));
    assert [] + [one] == [one];
    HeadersDiffer(one, two, nonce);
  }

  lemma HeadersDiffer(one: Config, two: Config, nonce: string)
    requires one == ScriptConfig(["a,b"]) && two == ScriptConfig(["a", "b"])
    ensures FreshHeader(one, nonce) != FreshHeader(two, nonce)
  {
    TemplateIsFresh(one, nonce);
    TemplateIsFresh(two, nonce);
    TemplatesDiffer(DefaultDirectives(), SCRIPT_SRC);
    BuildsDiffer(FreshTemplate(one), FreshTemplate(two), nonce);
  }

  lemma BuildsDiffer(s: Template, t: Template, nonce: string)
    requires s.prefix == t.prefix && |s.suffix| >= 4 && |t.suffix| >= 4 && s.suffix[3] != t.suffix[3]
    ensures Build(s, nonce) != Build(t, nonce)
  {
    var n := |s.prefix + nonce| + 3;
    assert Build(s, nonce)[n] == s.suffix[3] && Build(t, nonce)[n] == t.suffix[3];
  }
}
