/** rawParamsFromPath, and exactly when it reads back the parameters kit.Link was given. */
module RawParams {
  import opened Text
  import opened Links

  predicate Dynamic(segs: seq<Segment>) {
    exists i :: 0 <= i < |segs| && !segs[i].Static?
  }

  /** The path's raw pieces: one leading slash dropped, then split; an empty path has none. */
  function PathParts(path: string): seq<string> {
    var p := if |path| > 0 && path[0] == '/' then path[1..] else path;
    if p == "" then [] else Split(p, '/')
  }

  function Tail(parts: seq<string>): seq<string> {
    if |parts| > 0 then parts[1..] else []
  }

  /** Reading the segments off the remaining parts; a later segment of the same name wins. */
  function ReadOff(parts: seq<string>, segs: seq<Segment>, decoded: Params): Params
    decreases |segs|
  {
    if |segs| == 0 then map[]
    else match segs[0]
      case Static(_) => ReadOff(Tail(parts), segs[1..], decoded)
      case Param(name, _) =>
        if |parts| > 0 then map[name := parts[0]] + ReadOff(parts[1..], segs[1..], decoded)
        else ReadOff(parts, segs[1..], decoded)
      case Optional(name, _) =>
        if Get(decoded, name) != "" && |parts| > 0
        then map[name := parts[0]] + ReadOff(parts[1..], segs[1..], decoded)
        else map[name := ""] + ReadOff(parts, segs[1..], decoded)
      case Rest(name, _) => map[name := Join(parts, "/")] + ReadOff([], segs[1..], decoded)
  }

  function FromPath(path: string, segs: seq<Segment>, decoded: Params): Option<Params> {
    if Dynamic(segs) then Some(ReadOff(PathParts(path), segs, decoded)) else None
  }

  /** What is left of the parts once index pi has moved on, possibly past the end. */
  function From(parts: seq<string>, pi: nat): seq<string> {
    if pi <= |parts| then parts[pi..] else []
  }

  method CountDynamic(segs: seq<Segment>) returns (n: nat)
    ensures n == 0 <==> !Dynamic(segs)
  {
    n := 0;
    for i := 0 to |segs|
      invariant n == 0 <==> forall k :: 0 <= k < i ==> segs[k].Static?
    {
      if !segs[i].Static? {
        n := n + 1;
      }
    }
  }

  /** rawParamsFromPath. */
  method RawParamsFromPath(path: string, segs: seq<Segment>, decoded: Params) returns (r: Option<Params>)
    ensures r == FromPath(path, segs, decoded)
  {
    var paramCount := CountDynamic(segs);
    if paramCount == 0 {
      return None;
    }
    var out := ReadParts(PathParts(path), segs, decoded);
    return Some(out);
  }

  /** What one segment takes from the parts at index pi, and the index after it. */
  function Take(parts: seq<string>, pi: nat, s: Segment, decoded: Params): (Params, nat) {
    match s
    case Static(_) => (map[], pi + 1)
    case Param(name, _) => if pi < |parts| then (map[name := parts[pi]], pi + 1) else (map[], pi)
    case Optional(name, _) =>
      if Get(decoded, name) != "" && pi < |parts| then (map[name := parts[pi]], pi + 1) else (map[name := ""], pi)
    case Rest(name, _) => (map[name := if pi < |parts| then Join(parts[pi..], "/") else ""], |parts|)
  }

  /** What one segment takes from the front of the remaining parts, and what it leaves. */
  function TakeFront(rest: seq<string>, s: Segment, decoded: Params): (Params, seq<string>) {
    match s
    case Static(_) => (map[], Tail(rest))
    case Param(name, _) => if |rest| > 0 then (map[name := rest[0]], rest[1..]) else (map[], rest)
    case Optional(name, _) =>
      if Get(decoded, name) != "" && |rest| > 0 then (map[name := rest[0]], rest[1..]) else (map[name := ""], rest)
    case Rest(name, _) => (map[name := Join(rest, "/")], [])
  }

  lemma EmptyMapFront(m: Params)
    ensures map[] + m == m
  {
  }

  lemma ReadOffFront(rest: seq<string>, segs: seq<Segment>, decoded: Params)
    requires |segs| > 0
    ensures var (entry, after) := TakeFront(rest, segs[0], decoded);
      ReadOff(rest, segs, decoded) == entry + ReadOff(after, segs[1..], decoded)
  {
    var (entry, after) := TakeFront(rest, segs[0], decoded);
    EmptyMapFront(ReadOff(after, segs[1..], decoded));
  }

  lemma TakeFrontAt(parts: seq<string>, pi: nat, s: Segment, decoded: Params)
    ensures var (entry, next) := Take(parts, pi, s, decoded);
      TakeFront(From(parts, pi), s, decoded) == (entry, From(parts, next))
  {
    var rest := From(parts, pi);
    assert Tail(rest) == From(parts, pi + 1);
    if pi < |parts| {
      assert rest[0] == parts[pi] && rest[1..] == From(parts, pi + 1);
    }
    assert From(parts, |parts|) == [];
  }

  lemma TakeIsReadOff(parts: seq<string>, pi: nat, segs: seq<Segment>, decoded: Params)
    requires |segs| > 0
    ensures var (entry, next) := Take(parts, pi, segs[0], decoded);
      ReadOff(From(parts, pi), segs, decoded) == entry + ReadOff(From(parts, next), segs[1..], decoded)
  {
    ReadOffFront(From(parts, pi), segs, decoded);
    TakeFrontAt(parts, pi, segs[0], decoded);
  }

  lemma MapsAssociate(a: Params, b: Params, c: Params)
    ensures a + (b + c) == (a + b) + c
  {
  }

  lemma TakeOne(parts: seq<string>, pi: nat, segs: seq<Segment>, i: nat, decoded: Params, out: Params)
    requires i < |segs|
    ensures var (entry, next) := Take(parts, pi, segs[i], decoded);
      out + ReadOff(From(parts, pi), segs[i..], decoded)
      == (out + entry) + ReadOff(From(parts, next), segs[i + 1..], decoded)
  {
    var (entry, next) := Take(parts, pi, segs[i], decoded);
    TakeIsReadOff(parts, pi, segs[i..], decoded);
    assert segs[i..][1..] == segs[i + 1..];
    MapsAssociate(out, entry, ReadOff(From(parts, next), segs[i + 1..], decoded));
  }

  /** Its loop over the segments, with an index into the parts. */
  method ReadParts(parts: seq<string>, segs: seq<Segment>, decoded: Params) returns (out: Params)
    ensures out == ReadOff(parts, segs, decoded)
  {
    out := map[];
    var pi: nat := 0;
    for i := 0 to |segs|
      invariant ReadOff(parts, segs, decoded) == out + ReadOff(From(parts, pi), segs[i..], decoded)
    {
      var (entry, next) := Take(parts, pi, segs[i], decoded);
      TakeOne(parts, pi, segs, i, decoded, out);
      out := out + entry;
      pi := next;
    }
    assert segs[|segs|..] == [];
  }

  // ------------------------------------------------- what should be read back

  /** The parameters of a route, absent optional and rest segments as empty. */
  function Expected(segs: seq<Segment>, params: Params): Params {
    if |segs| == 0 then map[]
    else if segs[0].Static? then Expected(segs[1..], params)
    else map[segs[0].name := Get(params, segs[0].name)] + Expected(segs[1..], params)
  }

  predicate CleanValue(s: Segment, params: Params) {
    match s
    case Static(_) => true
    case Rest(name, _) => !HasPrefix(Get(params, name), "/")
    case _ => '/' !in Get(params, s.name)
  }

  predicate CleanValues(segs: seq<Segment>, params: Params) {
    forall i :: 0 <= i < |segs| ==> CleanValue(segs[i], params)
  }

  /** Each piece split at its own slashes. */
  function Expand(pieces: seq<string>): seq<string> {
    if |pieces| == 0 then [] else Split(pieces[0], '/') + Expand(pieces[1..])
  }

  lemma {:induction false} JoinAppend(x: seq<string>, y: seq<string>)
    requires |x| > 0 && |y| > 0
    ensures Join(x + y, "/") == Join(x, "/") + "/" + Join(y, "/")
  {
    if |x| == 1 {
      assert (x + y)[1..] == y;
    } else {
      assert (x + y)[1..] == x[1..] + y;
      JoinAppend(x[1..], y);
    }
  }

  predicate SlashFree(parts: seq<string>) {
    forall i :: 0 <= i < |parts| ==> '/' !in parts[i]
  }

  lemma {:induction false} ExpandJoins(pieces: seq<string>)
    requires |pieces| > 0
    ensures |Expand(pieces)| > 0 && SlashFree(Expand(pieces))
    ensures Join(Expand(pieces), "/") == Join(pieces, "/")
  {
    var head, rest := Split(pieces[0], '/'), pieces[1..];
    JoinSplit(pieces[0], '/');
    if |rest| == 0 {
      assert Expand(pieces) == head;
    } else {
      ExpandJoins(rest);
      JoinAppend(head, Expand(rest));
    }
  }

  lemma SplitJoined(pieces: seq<string>)
    requires |pieces| > 0
    ensures Split(Join(pieces, "/"), '/') == Expand(pieces)
  {
    ExpandJoins(pieces);
    SplitJoin(Expand(pieces), '/');
  }

  /** Reading a built path splits each written piece, except that a lone empty piece vanishes. */
  lemma PathPartsOf(pieces: seq<string>)
    ensures PathParts(PathOf(pieces)) == if pieces == [""] then [] else Expand(pieces)
  {
    if |pieces| > 0 {
      SlashedIsJoined(pieces);
      SplitJoined(pieces);
      var path := PathOf(pieces);
      assert path[1..] == Join(pieces, "/");
      JoinEmpty(pieces);
    } else {
      assert PathOf(pieces)[1..] == "";
    }
  }

  lemma JoinEmpty(pieces: seq<string>)
    requires |pieces| > 0
    ensures Join(pieces, "/") == "" <==> pieces == [""]
  {
  }

  // ----------------------------------------------------------- the round trip

  lemma GoodRest(segs: seq<Segment>)
    requires GoodRoute(segs) && |segs| > 0
    ensures GoodRoute(segs[1..])
    ensures segs[0].Rest? ==> |segs| == 1
    ensures !segs[0].Static? ==>
      forall i :: 0 <= i < |segs[1..]| && !segs[1..][i].Static? ==> segs[1..][i].name != segs[0].name
  {
  }

  predicate Unnamed(segs: seq<Segment>, name: string) {
    forall i :: 0 <= i < |segs| && !segs[i].Static? ==> segs[i].name != name
  }

  lemma UnnamedRest(segs: seq<Segment>, name: string)
    requires |segs| > 0 && Unnamed(segs, name)
    ensures Unnamed(segs[1..], name)
  {
    assert forall i :: 0 <= i < |segs[1..]| ==> segs[1..][i] == segs[i + 1];
  }

  lemma {:induction false} ReadsOnlyNames(parts: seq<string>, segs: seq<Segment>, params: Params, name: string)
    requires Unnamed(segs, name)
    ensures name !in ReadOff(parts, segs, params)
    decreases |segs|
  {
    if |segs| > 0 {
      var (entry, after) := TakeFront(parts, segs[0], params);
      UnnamedRest(segs, name);
      ReadOffFront(parts, segs, params);
      ReadsOnlyNames(after, segs[1..], params, name);
    }
  }

  lemma {:induction false} ExpectsOnlyNames(segs: seq<Segment>, params: Params, name: string)
    requires Unnamed(segs, name)
    ensures name !in Expected(segs, params)
    decreases |segs|
  {
    if |segs| > 0 {
      UnnamedRest(segs, name);
      ExpectsOnlyNames(segs[1..], params, name);
    }
  }

  /** Two maps built by putting one entry in front of others, when the others lack that name. */
  lemma FrontEntry(name: string, x: string, y: string, a: Params, b: Params)
    requires name !in a && name !in b
    ensures map[name := x] + a == map[name := y] + b <==> x == y && a == b
  {
    var l, r := map[name := x] + a, map[name := y] + b;
    if l == r {
      assert l[name] == x && r[name] == y;
      assert a == l - {name} && b == r - {name};
    }
  }

  lemma CleanHead(segs: seq<Segment>, params: Params)
    requires |segs| > 0
    ensures CleanValues(segs, params) <==> CleanValue(segs[0], params) && CleanValues(segs[1..], params)
  {
  }

  /** Reading the split pieces of a route gives the parameters exactly when every value is clean. */
  lemma {:induction false} ReadOffExactly(segs: seq<Segment>, params: Params)
    requires GoodRoute(segs)
    ensures ReadOff(Expand(Pieces(segs, params)), segs, params) == Expected(segs, params) <==> CleanValues(segs, params)
  {
    if |segs| > 0 {
      var s, rest := segs[0], segs[1..];
      GoodRest(segs);
      CleanHead(segs, params);
      ReadOffExactly(rest, params);
      if s.Static? {
        StaticStep(s, rest, params);
      } else {
        var more := Expand(Pieces(rest, params));
        ReadsOnlyNames(more, rest, params, s.name);
        ExpectsOnlyNames(rest, params, s.name);
        ReadsOnlyNames([], rest, params, s.name);
        ExpectsOnlyNames(rest, params, s.name);
        if s.Rest? {
          RestStep(segs, params);
        } else if Get(params, s.name) == "" && s.Optional? {
          assert Piece(s, params) + Pieces(rest, params) == Pieces(rest, params);
          FrontEntry(s.name, "", "", ReadOff(more, rest, params), Expected(rest, params));
        } else {
          ValueStep(segs, params);
        }
      }
    }
  }

  lemma ExpandCons(piece: string, pieces: seq<string>)
    ensures Expand([piece] + pieces) == Split(piece, '/') + Expand(pieces)
  {
  }

  lemma StaticStep(s: Segment, rest: seq<Segment>, params: Params)
    requires s.Static? && GoodSegment(s)
    ensures ReadOff(Expand(Piece(s, params) + Pieces(rest, params)), [s] + rest, params)
         == ReadOff(Expand(Pieces(rest, params)), rest, params)
  {
    ExpandCons(s.value, Pieces(rest, params));
    SplitPiece(s.value, '/');
    var more := Expand(Pieces(rest, params));
    assert Tail([s.value] + more) == more;
    assert ([s] + rest)[1..] == rest;
  }

  /** A required parameter, or an optional one with a value. */
  lemma ValueStep(segs: seq<Segment>, params: Params)
    requires GoodRoute(segs) && |segs| > 0
    requires segs[0].Param? || (segs[0].Optional? && Get(params, segs[0].name) != "")
    requires ReadOff(Expand(Pieces(segs[1..], params)), segs[1..], params) == Expected(segs[1..], params)
         <==> CleanValues(segs[1..], params)
    ensures ReadOff(Expand(Pieces(segs, params)), segs, params) == Expected(segs, params)
         <==> '/' !in Get(params, segs[0].name) && CleanValues(segs[1..], params)
  {
    var s, rest, v := segs[0], segs[1..], Get(params, segs[0].name);
    var more, cut := Expand(Pieces(rest, params)), Split(v, '/');
    GoodRest(segs);
    ExpandCons(v, Pieces(rest, params));
    JoinSplit(v, '/');
    var parts := cut + more;
    assert parts[0] == cut[0];
    ReadsOnlyNames(parts[1..], rest, params, s.name);
    ExpectsOnlyNames(rest, params, s.name);
    FrontEntry(s.name, cut[0], v, ReadOff(parts[1..], rest, params), Expected(rest, params));
    if '/' !in v {
      SplitPiece(v, '/');
      assert parts[1..] == more;
    }
  }

  lemma RestStep(segs: seq<Segment>, params: Params)
    requires GoodRoute(segs) && |segs| == 1 && segs[0].Rest?
    ensures ReadOff(Expand(Pieces(segs, params)), segs, params) == Expected(segs, params)
         <==> !HasPrefix(Get(params, segs[0].name), "/")
  {
    var s, v := segs[0], Get(params, segs[0].name);
    assert segs[1..] == [];
    assert Pieces([], params) == [];
    if v == "" {
      assert Pieces(segs, params) == [];
      FrontEntry(s.name, "", "", map[], map[]);
    } else {
      var t := TrimPrefix(v, "/");
      assert Pieces(segs, params) == [t];
      ExpandCons(t, []);
      assert [t] + [] == [t];
      JoinSplit(t, '/');
      assert Split(t, '/') + Expand([]) == Split(t, '/');
      FrontEntry(s.name, t, v, map[], map[]);
    }
  }

  lemma StaticIsNotLone(s: Segment, rest: seq<Segment>, params: Params)
    requires s.Static? && GoodSegment(s)
    ensures Piece(s, params) + Pieces(rest, params) != [""]
  {
    assert (Piece(s, params) + Pieces(rest, params))[0] == s.value;
  }

  /** When the only written piece is empty, some parameter is not read back. */
  lemma {:induction false} LonePieceIsLost(segs: seq<Segment>, params: Params)
    requires GoodRoute(segs) && Pieces(segs, params) == [""]
    ensures ReadOff([], segs, params) != Expected(segs, params)
  {
    var s, rest := segs[0], segs[1..];
    GoodRest(segs);
    assert Piece(s, params) + Pieces(rest, params) == [""];
    if s.Static? {
      StaticIsNotLone(s, rest, params);
    }
    ReadsOnlyNames([], rest, params, s.name);
    ExpectsOnlyNames(rest, params, s.name);
    if |Piece(s, params)| == 0 {
      assert Pieces(rest, params) == [""];
      LonePieceIsLost(rest, params);
      FrontEntry(s.name, "", "", ReadOff([], rest, params), Expected(rest, params));
    } else {
      assert Piece(s, params)[0] == "" by {
        assert (Piece(s, params) + Pieces(rest, params))[0] == Piece(s, params)[0];
      }
      if s.Param? {
        assert s.name in Expected(segs, params);
      } else {
        FrontEntry(s.name, "", Get(params, s.name), ReadOff([], rest, params), Expected(rest, params));
      }
    }
  }

  /**
   For every scanned route and every assignment of its required parameters: reading the path
   Link builds gives back exactly those parameters (absent ones as empty) if and only if no
   value holds a slash where one segment is read, the rest value does not start with one, and
   the path is not a single empty required value.
   */
  lemma LinkRoundTrip(segs: seq<Segment>, params: Params, link: Result<string>)
    requires GoodRoute(segs) && HasRequired(segs, params) && Dynamic(segs)
    requires link == LinkValue(BuildPattern(segs), params)
    ensures link.Ok?
    ensures FromPath(link.value, segs, params) == Some(Expected(segs, params))
        <==> CleanValues(segs, params) && Pieces(segs, params) != [""]
  {
    LinkOnRoute(segs, params);
    PathRoundTrip(segs, params, PathOf(Pieces(segs, params)));
  }

  lemma PathRoundTrip(segs: seq<Segment>, params: Params, path: string)
    requires GoodRoute(segs) && Dynamic(segs) && path == PathOf(Pieces(segs, params))
    ensures FromPath(path, segs, params) == Some(Expected(segs, params))
        <==> CleanValues(segs, params) && Pieces(segs, params) != [""]
  {
    PathReadsExactly(segs, params);
  }

  lemma PathReadsExactly(segs: seq<Segment>, params: Params)
    requires GoodRoute(segs)
    ensures ReadOff(PathParts(PathOf(Pieces(segs, params))), segs, params) == Expected(segs, params)
        <==> CleanValues(segs, params) && Pieces(segs, params) != [""]
  {
    PathPartsOf(Pieces(segs, params));
    if Pieces(segs, params) == [""] {
      LonePieceIsLost(segs, params);
    } else {
      ReadOffExactly(segs, params);
    }
  }
}
