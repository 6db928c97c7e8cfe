/**
 Route patterns: kit.Link builds a URL path from a pattern and parameters, and
 rawParamsFromPath reads raw parameters back out of a path.
 */
module Links {
  import opened Text

  type Params = map<string, string>

  /** One parsed path segment; the matcher is empty when the pattern names none. */
  datatype Segment =
    | Static(value: string)
    | Param(name: string, matcher: string)
    | Optional(name: string, matcher: string)
    | Rest(name: string, matcher: string)

  function NameAndMatcher(name: string, matcher: string): string {
    if matcher == "" then name else name + "=" + matcher
  }

  /** Segment.String. */
  function Print(s: Segment): string {
    match s
    case Static(value) => value
    case Param(name, matcher) => "[" + NameAndMatcher(name, matcher) + "]"
    case Optional(name, matcher) => "[[" + NameAndMatcher(name, matcher) + "]]"
    case Rest(name, matcher) => "[..." + NameAndMatcher(name, matcher) + "]"
  }

  function PrintAll(segs: seq<Segment>): seq<string> {
    seq(|segs|, i requires 0 <= i < |segs| => Print(segs[i]))
  }

  /** BuildPattern. */
  function BuildPattern(segs: seq<Segment>): string {
    if |segs| == 0 then "/" else "/" + Join(PrintAll(segs), "/")
  }

  // ------------------------------------------- what the scanner guarantees

  predicate PlainChars(s: string) {
    forall i :: 0 <= i < |s| ==> s[i] != '/' && s[i] != '[' && s[i] != ']'
  }

  /** An identifier: none of the characters that structure a pattern. */
  predicate IdentChars(s: string) {
    PlainChars(s) && forall i :: 0 <= i < |s| ==> s[i] != '=' && s[i] != '.'
  }

  predicate GoodSegment(s: Segment) {
    match s
    case Static(value) => value != "" && PlainChars(value)
    case _ => s.name != "" && IdentChars(s.name) && IdentChars(s.matcher)
  }

  /** Good segments, a rest segment only at the end, parameter names distinct. */
  predicate GoodRoute(segs: seq<Segment>) {
    && (forall i :: 0 <= i < |segs| ==> GoodSegment(segs[i]))
    && (forall i :: 0 <= i < |segs| - 1 ==> !segs[i].Rest?)
    && (forall i, j :: 0 <= i < j < |segs| && !segs[i].Static? && !segs[j].Static? ==> segs[i].name != segs[j].name)
  }

  // -------------------------------------------------------------------- Link

  datatype LinkError = BadPattern | MissingParam

  datatype Result<T> = Ok(value: T) | Err(error: LinkError)

  function StripMatcher(s: string): string {
    var i := IndexByte(s, '=');
    if i >= 0 then s[..i] else s
  }

  /** How one part of a pattern is read. */
  datatype Part =
    | OptionalPart(name: string)
    | RestPart(name: string)
    | ParamPart(name: string)
    | LiteralPart(text: string)

  /** The length tests follow from the bracket tests; they only make the slices plainly legal. */
  function ReadPart(part: string): Part {
    if HasPrefix(part, "[[") && HasSuffix(part, "]]") && |part| >= 4 then
      OptionalPart(StripMatcher(part[2..|part| - 2]))
    else if HasPrefix(part, "[...") && HasSuffix(part, "]") && |part| >= 5 then
      RestPart(StripMatcher(part[4..|part| - 1]))
    else if HasPrefix(part, "[") && HasSuffix(part, "]") && |part| >= 2 then
      ParamPart(StripMatcher(part[1..|part| - 1]))
    else LiteralPart(part)
  }

  function Get(params: Params, name: string): string {
    if name in params then params[name] else ""
  }

  /** The piece one part writes (after its slash), if any. */
  function PieceOf(part: Part, params: Params): Result<seq<string>> {
    match part
    case LiteralPart(text) => Ok([text])
    case OptionalPart(name) =>
      if name == "" then Err(BadPattern) else if Get(params, name) == "" then Ok([]) else Ok([Get(params, name)])
    case RestPart(name) =>
      if name == "" then Err(BadPattern)
      else if Get(params, name) == "" then Ok([])
      else Ok([TrimPrefix(Get(params, name), "/")])
    case ParamPart(name) =>
      if name == "" then Err(BadPattern)
      else if name !in params then Err(MissingParam)
      else Ok([params[name]])
  }

  /** The pieces of a list of parts, left to right; the first error wins. */
  function PiecesOf(parts: seq<string>, params: Params): Result<seq<string>> {
    if |parts| == 0 then Ok([])
    else match PiecesOf(parts[..|parts| - 1], params)
      case Err(e) => Err(e)
      case Ok(front) =>
        match PieceOf(ReadPart(parts[|parts| - 1]), params)
        case Err(e) => Err(e)
        case Ok(last) => Ok(front + last)
  }

  /** Each piece after a slash. */
  function Slashed(pieces: seq<string>): string {
    if |pieces| == 0 then "" else Slashed(pieces[..|pieces| - 1]) + "/" + pieces[|pieces| - 1]
  }

  function PathOf(pieces: seq<string>): string {
    if |pieces| == 0 then "/" else Slashed(pieces)
  }

  /** Link as a value. */
  function LinkValue(pattern: string, params: Params): Result<string> {
    if !HasPrefix(pattern, "/") then Err(BadPattern)
    else if pattern == "/" then Ok("/")
    else match PiecesOf(Split(pattern[1..], '/'), params)
      case Err(e) => Err(e)
      case Ok(pieces) => Ok(PathOf(pieces))
  }

  lemma {:induction false} FirstErrorWins(parts: seq<string>, n: nat, params: Params)
    requires n <= |parts| && PiecesOf(parts[..n], params).Err?
    ensures PiecesOf(parts, params) == PiecesOf(parts[..n], params)
  {
    if n == |parts| {
      assert parts[..n] == parts;
    } else {
      var front := parts[..|parts| - 1];
      assert front[..n] == parts[..n];
      FirstErrorWins(front, n, params);
    }
  }

  /** Why one part of a pattern makes Link fail, if it does. */
  function PartError(part: Part, params: Params): Option<LinkError> {
    match part
    case LiteralPart(_) => None
    case OptionalPart(name) => if name == "" then Some(BadPattern) else None
    case RestPart(name) => if name == "" then Some(BadPattern) else None
    case ParamPart(name) =>
      if name == "" then Some(BadPattern) else if name in params then None else Some(MissingParam)
  }

  /** The error of the first part that fails. */
  function FirstFailure(parts: seq<string>, params: Params): Option<LinkError> {
    if |parts| == 0 then None
    else if PartError(ReadPart(parts[0]), params).Some? then PartError(ReadPart(parts[0]), params)
    else FirstFailure(parts[1..], params)
  }

  lemma {:induction false} FirstFailureSnoc(parts: seq<string>, last: string, params: Params)
    ensures FirstFailure(parts + [last], params)
         == if FirstFailure(parts, params).Some? then FirstFailure(parts, params) else PartError(ReadPart(last), params)
  {
    if |parts| > 0 {
      FirstFailureSnoc(parts[1..], last, params);
      assert (parts + [last])[1..] == parts[1..] + [last];
    } else {
      assert parts + [last] == [last] && [last][1..] == [];
      assert FirstFailure([], params) == None;
    }
  }

  lemma PartFails(part: Part, params: Params)
    ensures PieceOf(part, params).Err? <==> PartError(part, params).Some?
    ensures PieceOf(part, params).Err? ==> PieceOf(part, params).error == PartError(part, params).value
  {
  }

  lemma {:induction false} PiecesFail(parts: seq<string>, params: Params)
    ensures PiecesOf(parts, params).Err? <==> FirstFailure(parts, params).Some?
    ensures PiecesOf(parts, params).Err? ==> PiecesOf(parts, params).error == FirstFailure(parts, params).value
  {
    if |parts| > 0 {
      var front, last := parts[..|parts| - 1], parts[|parts| - 1];
      PiecesFail(front, params);
      FirstFailureSnoc(front, last, params);
      PartFails(ReadPart(last), params);
      assert parts == front + [last];
    }
  }

  /** On any pattern: Link fails without a leading slash, or with the error of the first part that fails. */
  lemma LinkFailsExactly(pattern: string, params: Params)
    ensures var link := LinkValue(pattern, params);
      if !HasPrefix(pattern, "/") then link == Err(BadPattern)
      else if pattern == "/" then link == Ok("/")
      else
        var failure := FirstFailure(Split(pattern[1..], '/'), params);
        if failure.Some? then link == Err(failure.value) else link.Ok?
  {
    if HasPrefix(pattern, "/") && pattern != "/" {
      PiecesFail(Split(pattern[1..], '/'), params);
    }
  }

  lemma SlashedSnoc(pieces: seq<string>, more: seq<string>)
    requires |more| <= 1
    ensures Slashed(pieces + more) == Slashed(pieces) + if |more| == 1 then "/" + more[0] else ""
  {
    if |more| == 1 {
      assert (pieces + more)[..|pieces|] == pieces;
    } else {
      assert pieces + more == pieces;
    }
  }

  lemma SlashedOne(pieces: seq<string>)
    requires |pieces| <= 1
    ensures Slashed(pieces) == if |pieces| == 0 then "" else "/" + pieces[0]
  {
  }

  lemma {:induction false} SlashedCons(x: string, ys: seq<string>)
    ensures Slashed([x] + ys) == "/" + x + Slashed(ys)
  {
    if |ys| == 0 {
      assert [x] + ys == [x] && [x][..0] == [];
      assert Slashed([]) == "";
    } else {
      var n := |ys| - 1;
      assert ([x] + ys)[..|[x] + ys| - 1] == [x] + ys[..n];
      SlashedCons(x, ys[..n]);
    }
  }

  lemma {:induction false} SlashedIsJoined(pieces: seq<string>)
    requires |pieces| > 0
    ensures Slashed(pieces) == "/" + Join(pieces, "/")
  {
    if |pieces| > 1 {
      SlashedIsJoined(pieces[1..]);
      assert pieces == [pieces[0]] + pieces[1..];
      SlashedCons(pieces[0], pieces[1..]);
    } else {
      SlashedOne(pieces);
    }
  }

  lemma SlashedEmpty(pieces: seq<string>)
    ensures Slashed(pieces) == "" <==> |pieces| == 0
  {
  }

  /** What has been written after the first i parts. */
  ghost predicate Written(parts: seq<string>, i: nat, params: Params, b: string)
    requires i <= |parts|
  {
    PiecesOf(parts[..i], params).Ok? && b == Slashed(PiecesOf(parts[..i], params).value)
  }

  /** The body of Link's loop: one part, or its error. */
  method WritePart(parts: seq<string>, i: nat, params: Params, b: string) returns (b': Result<string>)
    requires i < |parts| && Written(parts, i, params, b)
    ensures b'.Ok? ==> Written(parts, i + 1, params, b'.value)
    ensures b'.Err? ==> PiecesOf(parts, params) == Err(b'.error)
  {
    assert parts[..i + 1][..i] == parts[..i];
    var piece := PieceOf(ReadPart(parts[i]), params);
    if piece.Err? {
      FirstErrorWins(parts, i + 1, params);
      return Err(piece.error);
    }
    SlashedSnoc(PiecesOf(parts[..i], params).value, piece.value);
    return Ok(if |piece.value| > 0 then b + ("/" + piece.value[0]) else b);
  }

  /** kit.Link: the loop over the parts, writing into a builder. */
  method Link(pattern: string, params: Params) returns (r: Result<string>)
    ensures r == LinkValue(pattern, params)
  {
    if !HasPrefix(pattern, "/") {
      return Err(BadPattern);
    }
    if pattern == "/" {
      return Ok("/");
    }
    var parts := Split(TrimPrefix(pattern, "/"), '/');
    var b := "";
    for i := 0 to |parts|
      invariant Written(parts, i, params, b)
    {
      var next := WritePart(parts, i, params, b);
      if next.Err? {
        return Err(next.error);
      }
      b := next.value;
    }
    assert parts[..|parts|] == parts;
    SlashedEmpty(PiecesOf(parts, params).value);
    return Ok(if |b| == 0 then "/" else b);
  }

  // --------------------------------------------- Link on the scanner's patterns

  /** The part a printed segment is read back as. */
  function PartOf(s: Segment): Part {
    match s
    case Static(value) => LiteralPart(value)
    case Param(name, _) => ParamPart(name)
    case Optional(name, _) => OptionalPart(name)
    case Rest(name, _) => RestPart(name)
  }

  lemma StripsMatcher(name: string, matcher: string)
    requires IdentChars(name)
    ensures StripMatcher(NameAndMatcher(name, matcher)) == name
  {
    if matcher != "" {
      assert NameAndMatcher(name, matcher) == name + ['='] + matcher;
      IndexByteOf(name, '=', matcher);
    }
  }

  lemma InnerIsPlain(name: string, matcher: string)
    requires IdentChars(name) && IdentChars(matcher) && name != ""
    ensures PlainChars(NameAndMatcher(name, matcher)) && |NameAndMatcher(name, matcher)| > 0
    ensures NameAndMatcher(name, matcher)[0] != '.'
  {
  }

  lemma OptionalReads(inner: string)
    ensures ReadPart("[[" + inner + "]]") == OptionalPart(StripMatcher(inner))
  {
  }

  lemma RestReads(inner: string)
    ensures ReadPart("[..." + inner + "]") == RestPart(StripMatcher(inner))
  {
    var part := "[..." + inner + "]";
    assert part[1] == '.' && part[..2][1] == '.';
    assert part[..4] == "[..." && part[|part| - 1..] == "]";
    assert part[4..|part| - 1] == inner;
  }

  lemma ParamReads(inner: string)
    requires PlainChars(inner) && |inner| > 0 && inner[0] != '.'
    ensures ReadPart("[" + inner + "]") == ParamPart(StripMatcher(inner))
  {
    var part := "[" + inner + "]";
    assert part[1] == inner[0] && part[..2][1] == inner[0];
    assert |part| >= 4 ==> part[..4][1] == inner[0];
    assert part[..1] == "[" && part[|part| - 1..] == "]";
    assert part[1..|part| - 1] == inner;
  }

  /** Link reads each printed segment as what it is. */
  lemma PrintedReads(s: Segment)
    requires GoodSegment(s)
    ensures ReadPart(Print(s)) == PartOf(s)
  {
    match s
    case Static(value) => assert value[0] != '[' && (|value| >= 2 ==> value[..2][0] != '[') && value[..1][0] != '[';
    case Optional(name, matcher) =>
      OptionalReads(NameAndMatcher(name, matcher));
      StripsMatcher(name, matcher);
    case Rest(name, matcher) =>
      RestReads(NameAndMatcher(name, matcher));
      StripsMatcher(name, matcher);
    case Param(name, matcher) =>
      InnerIsPlain(name, matcher);
      ParamReads(NameAndMatcher(name, matcher));
      StripsMatcher(name, matcher);
  }

  lemma PrintHasNoSlash(s: Segment)
    requires GoodSegment(s)
    ensures '/' !in Print(s) && Print(s) != ""
  {
  }

  /** The piece one segment writes, if any. */
  function Piece(s: Segment, params: Params): seq<string> {
    match s
    case Static(value) => [value]
    case Param(name, _) => [Get(params, name)]
    case Optional(name, _) => if Get(params, name) == "" then [] else [Get(params, name)]
    case Rest(name, _) => if Get(params, name) == "" then [] else [TrimPrefix(Get(params, name), "/")]
  }

  /** The pieces a route writes for the given parameters. */
  function Pieces(segs: seq<Segment>, params: Params): seq<string> {
    if |segs| == 0 then [] else Piece(segs[0], params) + Pieces(segs[1..], params)
  }

  predicate HasRequired(segs: seq<Segment>, params: Params) {
    forall i :: 0 <= i < |segs| && segs[i].Param? ==> segs[i].name in params
  }

  lemma {:induction false} PiecesAppend(a: seq<Segment>, b: seq<Segment>, params: Params)
    ensures Pieces(a + b, params) == Pieces(a, params) + Pieces(b, params)
  {
    if |a| == 0 {
      assert a + b == b;
    } else {
      assert (a + b)[1..] == a[1..] + b;
      PiecesAppend(a[1..], b, params);
    }
  }

  lemma PiecesSnoc(front: seq<Segment>, last: Segment, params: Params)
    ensures Pieces(front + [last], params) == Pieces(front, params) + Piece(last, params)
  {
    PiecesAppend(front, [last], params);
    assert [last][1..] == [];
    assert Piece(last, params) + [] == Piece(last, params);
  }

  lemma RequiredSnoc(front: seq<Segment>, last: Segment, params: Params)
    ensures HasRequired(front + [last], params) <==> HasRequired(front, params) && (last.Param? ==> last.name in params)
  {
    var segs := front + [last];
    assert segs[|front|] == last && forall i :: 0 <= i < |front| ==> segs[i] == front[i];
  }

  lemma PrintAllSnoc(front: seq<Segment>, last: Segment)
    ensures PrintAll(front + [last]) == PrintAll(front) + [Print(last)]
  {
    var segs := front + [last];
    assert segs[|front|] == last && forall i :: 0 <= i < |front| ==> segs[i] == front[i];
  }

  /** A printed segment writes its piece, unless it is a required parameter that is missing. */
  lemma PrintedPiece(s: Segment, params: Params)
    requires GoodSegment(s)
    ensures PieceOf(ReadPart(Print(s)), params)
         == if s.Param? && s.name !in params then Err(MissingParam) else Ok(Piece(s, params))
  {
    PrintedReads(s);
  }

  lemma PiecesOfSnoc(parts: seq<string>, part: string, params: Params, front: Result<seq<string>>,
                     last: Result<seq<string>>)
    requires front == PiecesOf(parts, params) && last == PieceOf(ReadPart(part), params)
    ensures PiecesOf(parts + [part], params)
         == if front.Err? then front else if last.Err? then last else Ok(front.value + last.value)
  {
    assert (parts + [part])[..|parts|] == parts;
  }

  lemma {:induction false} PrintedPieces(segs: seq<Segment>, params: Params)
    requires forall i :: 0 <= i < |segs| ==> GoodSegment(segs[i])
    ensures PiecesOf(PrintAll(segs), params)
         == if HasRequired(segs, params) then Ok(Pieces(segs, params)) else Err(MissingParam)
  {
    if |segs| > 0 {
      var n := |segs| - 1;
      var front, last := segs[..n], segs[n];
      PrintedPieces(front, params);
      assert front + [last] == segs;
      PrintAllSnoc(front, last);
      PrintedPiece(last, params);
      PiecesOfSnoc(PrintAll(front), Print(last), params, PiecesOf(PrintAll(front), params),
                   PieceOf(ReadPart(Print(last)), params));
      PiecesSnoc(front, last, params);
      RequiredSnoc(front, last, params);
    }
  }

  /** On a scanned route Link fails only for a missing required parameter, and otherwise writes its pieces. */
  lemma LinkOnRoute(segs: seq<Segment>, params: Params)
    requires forall i :: 0 <= i < |segs| ==> GoodSegment(segs[i])
    ensures LinkValue(BuildPattern(segs), params)
         == if HasRequired(segs, params) then Ok(PathOf(Pieces(segs, params))) else Err(MissingParam)
  {
    var pattern := BuildPattern(segs);
    if |segs| > 0 {
      forall i | 0 <= i < |segs|
        ensures '/' !in PrintAll(segs)[i]
      {
        PrintHasNoSlash(segs[i]);
      }
      PrintHasNoSlash(segs[0]);
      assert pattern[1..] == Join(PrintAll(segs), "/");
      assert Join(PrintAll(segs), "/") != "" by { JoinNonEmpty(PrintAll(segs)); }
      assert pattern[..1] == "/";
      SplitJoin(PrintAll(segs), '/');
      PrintedPieces(segs, params);
    }
  }

  lemma JoinNonEmpty(parts: seq<string>)
    requires |parts| > 0 && parts[0] != ""
    ensures Join(parts, "/") != ""
  {
  }
}
