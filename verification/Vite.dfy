/**
 The Vite manifest walk behind the head fragment: stylesheet links plus one
 modulepreload hint per transitively imported chunk, over a graph that may be
 cyclic and may name chunks the manifest does not list.
 */
module Vite {
  import opened Text

  datatype Chunk = Chunk(file: string, imports: seq<string>, css: seq<string>, isEntry: bool)

  type Manifest = map<string, Chunk>

  // ------------------------------------------------------------ reachability

  ghost predicate Imports(m: Manifest, src: string, dst: string) {
    src in m && dst in m[src].imports
  }

  /** A walk along one or more import edges; only listed chunks have edges. */
  ghost predicate Walk(m: Manifest, p: seq<string>) {
    |p| >= 2 && forall i :: 0 < i < |p| ==> Imports(m, p[i - 1], p[i])
  }

  ghost predicate Reaches(m: Manifest, src: string, dst: string) {
    exists p :: Walk(m, p) && p[0] == src && p[|p| - 1] == dst
  }

  lemma ReachesEdge(m: Manifest, src: string, dst: string)
    requires Imports(m, src, dst)
    ensures Reaches(m, src, dst)
  {
    assert Walk(m, [src, dst]);
  }

  lemma ReachesStep(m: Manifest, src: string, mid: string, dst: string)
    requires Imports(m, src, mid) && Reaches(m, mid, dst)
    ensures Reaches(m, src, dst)
  {
    var p :| Walk(m, p) && p[0] == mid && p[|p| - 1] == dst;
    var q := [src] + p;
    forall i | 0 < i < |q|
      ensures Imports(m, q[i - 1], q[i])
    {
      if i > 1 {
        assert q[i] == p[i - 1] && q[i - 1] == p[i - 2];
      }
    }
    assert Walk(m, q);
  }

  /** Every import of a listed key of `from` is in `s`. */
  ghost predicate Covers(m: Manifest, from: set<string>, s: set<string>) {
    forall v, w :: v in from && Imports(m, v, w) ==> w in s
  }

  lemma {:induction false} WalkStays(m: Manifest, s: set<string>, p: seq<string>)
    requires Walk(m, p)
    requires Covers(m, {p[0]} + s, s)
    ensures p[|p| - 1] in s
    decreases |p|
  {
    assert Imports(m, p[0], p[1]);
    if |p| > 2 {
      var q := p[1..];
      assert forall i :: 0 < i < |q| ==> q[i] == p[i + 1] && q[i - 1] == p[i];
      WalkStays(m, s, q);
    }
  }

  /** A set that is closed under imports and holds the first hop holds every reachable key. */
  lemma ClosedHoldsReachable(m: Manifest, src: string, s: set<string>)
    requires Covers(m, {src} + s, s)
    ensures forall v :: Reaches(m, src, v) ==> v in s
  {
    forall v | Reaches(m, src, v)
      ensures v in s
    {
      var p :| Walk(m, p) && p[0] == src && p[|p| - 1] == v;
      WalkStays(m, s, p);
    }
  }

  // ------------------------------------------------------------------- tags

  /** One line of the head fragment. */
  datatype Tag = Stylesheet(file: string) | ModulePreload(file: string)

  function NonceAttr(nonce: string): string {
    if nonce == "" then "" else " nonce=\"" + nonce + "\""
  }

  function Print(tag: Tag, base: string, nonce: string): string {
    match tag
    case Stylesheet(file) => "<link rel=\"stylesheet\" href=\"" + base + "/" + file + "\">\n"
    case ModulePreload(file) =>
      "<link rel=\"modulepreload\"" + NonceAttr(nonce) + " href=\"" + base + "/" + file + "\">\n"
  }

  function PrintAll(tags: seq<Tag>, base: string, nonce: string): string {
    if |tags| == 0 then "" else PrintAll(tags[..|tags| - 1], base, nonce) + Print(tags[|tags| - 1], base, nonce)
  }

  function Preloads(m: Manifest, keys: seq<string>): seq<Tag>
    requires forall k :: k in keys ==> k in m
  {
    seq(|keys|, i requires 0 <= i < |keys| => ModulePreload(m[keys[i]].file))
  }

  function Stylesheets(files: seq<string>): seq<Tag> {
    seq(|files|, i requires 0 <= i < |files| => Stylesheet(files[i]))
  }

  function GlobalCSSFile(m: Manifest): string {
    if "src/app.css" in m && HasSuffix(m["src/app.css"].file, ".css") then m["src/app.css"].file else ""
  }

  function TrimRightSlash(s: string): string {
    if |s| > 0 && s[|s| - 1] == '/' then TrimRightSlash(s[..|s| - 1]) else s
  }

  /** All slashes at the end go, and nothing else. */
  lemma {:induction false} TrimmedBase(s: string)
    ensures TrimRightSlash(s) <= s
    ensures forall i :: |TrimRightSlash(s)| <= i < |s| ==> s[i] == '/'
    ensures var t := TrimRightSlash(s); |t| > 0 ==> t[|t| - 1] != '/'
  {
    if |s| > 0 && s[|s| - 1] == '/' {
      TrimmedBase(s[..|s| - 1]);
    }
  }

  // --------------------------------------------------------------- the walk

  /** All names that occur in some chunk's import list: the walk never leaves it. */
  function Mentioned(m: Manifest): set<string> {
    set k, w | k in m && w in m[k].imports :: w
  }

  /** The emitted tags are those of `keys`, the listed part of the seen set, each once. */
  ghost predicate Emission(m: Manifest, seen: set<string>, keys: seq<string>, tags: seq<Tag>) {
    && NoRepeat(keys)
    && (forall k :: k in keys <==> k in m && k in seen)
    && tags == Preloads(m, keys)
  }

  lemma EmitNext(m: Manifest, seen: set<string>, keys: seq<string>, tags: seq<Tag>, imp: string)
    requires Emission(m, seen, keys, tags) && imp !in seen && imp in m
    ensures Emission(m, seen + {imp}, keys + [imp], tags + [ModulePreload(m[imp].file)])
  {
  }

  /** What visiting one import name adds to the seen set. */
  ghost predicate VisitAdds(m: Manifest, imp: string, before: set<string>, after: set<string>) {
    && before <= after
    && imp in after
    && Covers(m, after - before, after)
    && (forall v :: v in after && v !in before ==> v == imp || Reaches(m, imp, v))
  }

  /** What walking the first n imports of `key` adds to the seen set. */
  ghost predicate WalkAdds(m: Manifest, key: string, n: nat, before: set<string>, after: set<string>)
    requires key in m && n <= |m[key].imports|
  {
    && before <= after
    && Covers(m, after - before, after)
    && (forall j :: 0 <= j < n ==> m[key].imports[j] in after)
    && (forall v :: v in after && v !in before ==> Reaches(m, key, v))
  }

  // ----------------------------------------------------- the order of the hints

  ghost predicate AllMentioned(m: Manifest, todo: seq<string>) {
    forall k :: k in todo ==> k in Mentioned(m)
  }

  lemma ImportsMentioned(m: Manifest, key: string, rest: seq<string>)
    requires key in m && AllMentioned(m, rest)
    ensures AllMentioned(m, m[key].imports + rest)
  {
  }

  /** Depth-first order with an explicit stack: the listed names met, each when first met. */
  ghost function DepthFirst(m: Manifest, todo: seq<string>, seen: set<string>): seq<string>
    requires AllMentioned(m, todo)
    decreases |Mentioned(m) - seen|, |todo|
  {
    if |todo| == 0 then []
    else if todo[0] in seen then DepthFirst(m, todo[1..], seen)
    else
      MentionedShrinks(m, seen, seen + {todo[0]}, todo[0]);
      if todo[0] !in m then DepthFirst(m, todo[1..], seen + {todo[0]})
      else
        ImportsMentioned(m, todo[0], todo[1..]);
        [todo[0]] + DepthFirst(m, m[todo[0]].imports + todo[1..], seen + {todo[0]})
  }

  /** The names still to come, and the keys emitted so far. */
  ghost predicate Ahead(m: Manifest, keys: seq<string>, todo: seq<string>, seen: set<string>, all: seq<string>) {
    AllMentioned(m, todo) && keys + DepthFirst(m, todo, seen) == all
  }

  /** The first i imports of `key` have been walked, the others and `rest` are still to come. */
  ghost predicate Walked(m: Manifest, key: string, i: nat, start: set<string>, seen: set<string>,
                         keys: seq<string>, rest: seq<string>, all: seq<string>) {
    && key in m
    && i <= |m[key].imports|
    && WalkAdds(m, key, i, start, seen)
    && Ahead(m, keys, m[key].imports[i..] + rest, seen, all)
  }

  lemma WalkStarts(m: Manifest, key: string, seen: set<string>, keys: seq<string>, rest: seq<string>, all: seq<string>)
    requires key in m && Ahead(m, keys, m[key].imports + rest, seen, all)
    ensures Walked(m, key, 0, seen, seen, keys, rest, all)
  {
    assert m[key].imports[0..] == m[key].imports;
  }

  lemma WalkEnds(m: Manifest, key: string, start: set<string>, seen: set<string>, keys: seq<string>, rest: seq<string>,
                 all: seq<string>)
    requires key in m && Walked(m, key, |m[key].imports|, start, seen, keys, rest, all)
    ensures Ahead(m, keys, rest, seen, all)
  {
    assert m[key].imports[|m[key].imports|..] + rest == rest;
  }

  class ImportCollector {
    const m: Manifest
    var seen: set<string>
    var tags: seq<Tag>
    ghost var keys: seq<string>

    ghost predicate Valid()
      reads this
    {
      seen <= Mentioned(m) && Emission(m, seen, keys, tags)
    }

    constructor (m: Manifest)
      ensures Valid() && seen == {} && keys == [] && this.m == m
    {
      this.m := m;
      seen, tags, keys := {}, [], [];
    }

    /** collectImports: the recursive closure over `seen` and the builder; `rest` is what its callers have left. */
    method Collect(key: string, ghost rest: seq<string>, ghost all: seq<string>)
      requires Valid() && AllMentioned(m, rest)
      requires key in m ==> Ahead(m, keys, m[key].imports + rest, seen, all)
      modifies this
      ensures Valid()
      ensures key !in m ==> seen == old(seen) && keys == old(keys)
      ensures key in m ==> WalkAdds(m, key, |m[key].imports|, old(seen), seen) && Ahead(m, keys, rest, seen, all)
      decreases |Mentioned(m) - seen|, 2
    {
      if key !in m {
        return;
      }
      WalkStarts(m, key, seen, keys, rest, all);
      for i := 0 to |m[key].imports|
        invariant Valid() && Walked(m, key, i, old(seen), seen, keys, rest, all)
      {
        SubsetSize(Mentioned(m) - seen, Mentioned(m) - old(seen));
        VisitImport(key, i, old(seen), rest, all);
      }
      WalkEnds(m, key, old(seen), seen, keys, rest, all);
    }

    /** One turn of the loop. */
    method VisitImport(key: string, i: nat, ghost start: set<string>, ghost rest: seq<string>, ghost all: seq<string>)
      requires Valid() && key in m && i < |m[key].imports| && Walked(m, key, i, start, seen, keys, rest, all)
      modifies this
      ensures Valid() && Walked(m, key, i + 1, start, seen, keys, rest, all)
      decreases |Mentioned(m) - seen|, 1
    {
      var imports := m[key].imports;
      assert imports[i..] + rest == [imports[i]] + (imports[i + 1..] + rest);
      assert imports[i] in m[key].imports;
      Visit(imports[i], imports[i + 1..] + rest, all);
      WalkNext(m, key, i, start, old(seen), seen);
    }

    /** The body of that closure's loop. */
    method Visit(imp: string, ghost rest: seq<string>, ghost all: seq<string>)
      requires Valid() && imp in Mentioned(m) && Ahead(m, keys, [imp] + rest, seen, all)
      modifies this
      ensures Valid() && Ahead(m, keys, rest, seen, all)
      ensures VisitAdds(m, imp, old(seen), seen)
      decreases |Mentioned(m) - seen|, 0
    {
      StackStep(m, keys, imp, rest, seen, all);
      if imp in seen {
        return;
      }
      if imp !in m {
        seen := seen + {imp};
        return;
      }
      EmitNext(m, seen, keys, tags, imp);
      MentionedShrinks(m, seen, seen + {imp}, imp);
      seen := seen + {imp};
      tags := tags + [ModulePreload(m[imp].file)];
      keys := keys + [imp];
      Collect(imp, rest, all);
    }
  }

  /** What the top of the stack turns into. */
  lemma StackStep(m: Manifest, keys: seq<string>, imp: string, rest: seq<string>, seen: set<string>, all: seq<string>)
    requires Ahead(m, keys, [imp] + rest, seen, all)
    ensures AllMentioned(m, rest)
    ensures imp in seen ==> Ahead(m, keys, rest, seen, all)
    ensures imp !in seen && imp !in m ==> Ahead(m, keys, rest, seen + {imp}, all)
    ensures imp !in seen && imp in m ==> Ahead(m, keys + [imp], m[imp].imports + rest, seen + {imp}, all)
  {
    var todo := [imp] + rest;
    assert todo[0] == imp && todo[1..] == rest;
    assert forall k :: k in rest ==> k in todo;
    if imp !in seen && imp in m {
      ImportsMentioned(m, imp, rest);
      var more := DepthFirst(m, m[imp].imports + rest, seen + {imp});
      assert keys + ([imp] + more) == (keys + [imp]) + more;
    }
  }

  lemma MentionedShrinks(m: Manifest, before: set<string>, after: set<string>, imp: string)
    requires before <= after && imp in after && imp !in before && imp in Mentioned(m)
    ensures |Mentioned(m) - after| < |Mentioned(m) - before|
  {
    var a, b := Mentioned(m) - after, Mentioned(m) - before;
    assert a <= b - {imp};
    SubsetSize(a, b - {imp});
  }

  /** Folding the visit of import i into the walk from `key`. */
  lemma WalkNext(m: Manifest, key: string, i: nat, start: set<string>, before: set<string>, after: set<string>)
    requires key in m && i < |m[key].imports|
    requires WalkAdds(m, key, i, start, before)
    requires VisitAdds(m, m[key].imports[i], before, after)
    ensures WalkAdds(m, key, i + 1, start, after)
  {
    var imp := m[key].imports[i];
    ReachesEdge(m, key, imp);
    forall v | v in after && v !in start
      ensures Reaches(m, key, v)
    {
      if v !in before && v != imp {
        ReachesStep(m, key, imp, v);
      }
    }
  }

  /** A finished walk from an empty seen set has seen exactly the reachable names. */
  lemma WalkIsClosure(m: Manifest, root: string, seen: set<string>)
    requires root in m && WalkAdds(m, root, |m[root].imports|, {}, seen)
    ensures forall v :: v in seen <==> Reaches(m, root, v)
  {
    ClosedHoldsReachable(m, root, seen);
  }

  /** `keys` lists, once each and in depth-first order, the listed chunks reachable from `root` by imports. */
  ghost predicate IsImportClosure(m: Manifest, root: string, keys: seq<string>) {
    && NoRepeat(keys)
    && (forall k :: k in keys <==> k in m && Reaches(m, root, k))
    && root in m
    && AllMentioned(m, m[root].imports)
    && keys == DepthFirst(m, m[root].imports, {})
  }

  /** The fragment's lines when `keys` are the chunks to preload. */
  function HeadTags(m: Manifest, routeKey: string, keys: seq<string>): seq<Tag>
    requires routeKey in m && forall k :: k in keys ==> k in m
  {
    (if GlobalCSSFile(m) == "" then [] else [Stylesheet(GlobalCSSFile(m))])
    + Preloads(m, keys)
    + Stylesheets(m[routeKey].css)
  }

  /** One preload for each key of the closure. */
  ghost predicate PreloadsClosure(m: Manifest, root: string, tags: seq<Tag>) {
    exists keys :: IsImportClosure(m, root, keys) && tags == Preloads(m, keys)
  }

  method ImportTags(m: Manifest, root: string) returns (tags: seq<Tag>, ghost keys: seq<string>)
    requires root in m
    ensures PreloadsClosure(m, root, tags)
    ensures IsImportClosure(m, root, keys) && tags == Preloads(m, keys)
  {
    var collector := new ImportCollector(m);
    ImportsMentioned(m, root, []);
    assert m[root].imports + [] == m[root].imports;
    collector.Collect(root, [], DepthFirst(m, m[root].imports, {}));
    WalkIsClosure(m, root, collector.seen);
    return collector.tags, collector.keys;
  }

  method AddStylesheets(head: seq<Tag>, css: seq<string>) returns (tags: seq<Tag>)
    ensures tags == head + Stylesheets(css)
  {
    tags := head;
    for i := 0 to |css|
      invariant tags == head + Stylesheets(css)[..i]
    {
      tags := tags + [Stylesheet(css[i])];
    }
  }

  /** headAssetTags: global stylesheet, preload hints, then the route's own stylesheets. */
  method HeadAssetTags(m: Manifest, routeKey: string, base: string, nonce: string)
    returns (text: string, ghost keys: seq<string>)
    ensures routeKey !in m ==> text == ""
    ensures routeKey in m ==>
      && IsImportClosure(m, routeKey, keys)
      && text == PrintAll(HeadTags(m, routeKey, keys), TrimRightSlash(base), nonce)
  {
    keys := [];
    if routeKey !in m {
      return "", keys;
    }
    var tags := [];
    var globalCSS := GlobalCSSFile(m);
    if globalCSS != "" {
      tags := [Stylesheet(globalCSS)];
    }
    var preloads;
    preloads, keys := ImportTags(m, routeKey);
    tags := tags + preloads;
    tags := AddStylesheets(tags, m[routeKey].css);
    assert tags == HeadTags(m, routeKey, keys);
    text := PrintAll(tags, TrimRightSlash(base), nonce);
  }

  // ------------------------------------------------------- the order of the hints

  /** The i-th key is one of those asked for, or an import of an earlier key. */
  ghost predicate AskedFor(m: Manifest, todo: seq<string>, keys: seq<string>, i: nat)
    requires i < |keys|
  {
    keys[i] in todo || exists j :: 0 <= j < i && Imports(m, keys[j], keys[i])
  }

  lemma AskedNext(m: Manifest, h: string, rest: seq<string>, more: seq<string>, i: nat)
    requires h in m && i < |more| && AskedFor(m, m[h].imports + rest, more, i)
    ensures AskedFor(m, [h] + rest, [h] + more, i + 1)
  {
    var keys := [h] + more;
    if more[i] in m[h].imports {
      assert Imports(m, keys[0], keys[i + 1]);
    } else if j :| 0 <= j < i && Imports(m, more[j], more[i]) {
      assert Imports(m, keys[j + 1], keys[i + 1]);
    }
  }

  /** A chunk is hinted after a chunk that imports it, unless the route imports it itself. */
  lemma {:induction false} ImporterFirst(m: Manifest, todo: seq<string>, seen: set<string>, i: nat)
    requires AllMentioned(m, todo) && i < |DepthFirst(m, todo, seen)|
    ensures AskedFor(m, todo, DepthFirst(m, todo, seen), i)
    decreases |Mentioned(m) - seen|, |todo|
  {
    var h, rest := todo[0], todo[1..];
    assert todo == [h] + rest;
    if h in seen {
      ImporterFirst(m, rest, seen, i);
    } else {
      MentionedShrinks(m, seen, seen + {h}, h);
      if h !in m {
        ImporterFirst(m, rest, seen + {h}, i);
      } else {
        ImportsMentioned(m, h, rest);
        if i > 0 {
          ImporterFirst(m, m[h].imports + rest, seen + {h}, i - 1);
          AskedNext(m, h, rest, DepthFirst(m, m[h].imports + rest, seen + {h}), i - 1);
        }
      }
    }
  }

  /** Four chunks, two of which share one. */
  function SharedManifest(): Manifest {
    map["a" := Chunk("a.js", ["b", "c"], ["a.css"], true), "b" := Chunk("b.js", ["d"], [], false),
        "c" := Chunk("c.js", ["d"], [], false), "d" := Chunk("d.js", [], [], false)]
  }

  lemma SharedMentions(m: Manifest)
    requires m == SharedManifest()
    ensures forall todo, k :: todo in {["b", "c"], ["d", "c"], ["c"], ["d"], []} && k in todo ==> k in Mentioned(m)
  {
    assert "b" in m["a"].imports && "c" in m["a"].imports && "d" in m["b"].imports;
  }

  lemma MeetNew(m: Manifest, h: string, rest: seq<string>, seen: set<string>)
    requires AllMentioned(m, [h] + rest) && h in m && h !in seen
    ensures AllMentioned(m, m[h].imports + rest)
    ensures DepthFirst(m, [h] + rest, seen) == [h] + DepthFirst(m, m[h].imports + rest, seen + {h})
  {
    assert ([h] + rest)[1..] == rest;
    ImportsMentioned(m, h, rest);
  }

  lemma MeetOld(m: Manifest, h: string, rest: seq<string>, seen: set<string>)
    requires AllMentioned(m, [h] + rest) && h in seen
    ensures AllMentioned(m, rest) && DepthFirst(m, [h] + rest, seen) == DepthFirst(m, rest, seen)
  {
    assert ([h] + rest)[1..] == rest;
  }

  /** A shared chunk is hinted where it is first met, behind its first importer. */
  lemma SharedChunk(m: Manifest)
    requires m == SharedManifest()
    ensures AllMentioned(m, ["b", "c"]) && DepthFirst(m, ["b", "c"], {}) == ["b", "d", "c"]
  {
    SharedMentions(m);
    assert ["b", "c"] in {["b", "c"], ["d", "c"], ["c"], ["d"], []};
    assert ["b"] + ["c"] == ["b", "c"] && ["d"] + ["c"] == ["d", "c"] && ["c"] + [] == ["c"] && ["d"] + [] == ["d"];
    assert [] + ["c"] == ["c"];
    MeetNew(m, "b", ["c"], {});
    MeetNew(m, "d", ["c"], {} + {"b"});
    MeetNew(m, "c", [], {} + {"b"} + {"d"});
    MeetOld(m, "d", [], {} + {"b"} + {"d"} + {"c"});
  }

  /** The lines of its head fragment. */
  lemma SharedHead(m: Manifest)
    requires m == SharedManifest()
    ensures HeadTags(m, "a", ["b", "d", "c"])
         == [ModulePreload("b.js"), ModulePreload("d.js"), ModulePreload("c.js"), Stylesheet("a.css")]
  {
  }

  /** A preload hint carries the nonce when there is one; a stylesheet never does. */
  lemma HintLines(file: string, base: string, nonce: string)
    requires nonce != ""
    ensures Print(ModulePreload(file), base, "")
         == "<link rel=\"modulepreload\"" + "" + " href=\"" + base + "/" + file + "\">\n"
    ensures Print(ModulePreload(file), base, nonce)
         == "<link rel=\"modulepreload\"" + (" nonce=\"" + nonce + "\"") + " href=\"" + base + "/" + file + "\">\n"
    ensures Print(Stylesheet(file), base, nonce) == Print(Stylesheet(file), base, "")
  {
  }

  /** The global stylesheet comes first, when the manifest has one. */
  lemma GlobalFirst(m: Manifest, routeKey: string, keys: seq<string>, chunk: Chunk)
    requires routeKey in m && (forall k :: k in keys ==> k in m)
    requires "src/app.css" in m && m["src/app.css"] == chunk && chunk.file == "assets/app.css"
    ensures |HeadTags(m, routeKey, keys)| > 0 && HeadTags(m, routeKey, keys)[0] == Stylesheet("assets/app.css")
  {
    assert HasSuffix("assets/app.css", ".css");
  }
}
