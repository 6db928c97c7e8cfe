/**
 The code generator for typed link helpers: the statements it emits for a route,
 an interpreter for them, and how the generated helper compares with kit.Link.
 */
module LinkEmit {
  import opened Text
  import opened Links
  import opened LinkFields

  // ------------------------------------------------------- the emitted statements

  datatype Stmt =
    | WriteLiteral(text: string)
    | WriteSlash
    | WriteField(field: string)
    | WriteTrimmed(field: string)
    | IfNonEmpty(field: string, body: seq<Stmt>)

  datatype Helper = ReturnConstant(text: string) | Build(stmts: seq<Stmt>)

  predicate IsStaticPart(part: string) {
    forall i :: 0 <= i < |part| ==> part[i] != '[' && part[i] != ']'
  }

  /** The statements for one pattern part, given its parameter slot when it takes one. */
  function EmitPart(part: string, p: Option<LinkParam>): seq<Stmt> {
    if IsStaticPart(part) then [WriteLiteral("/" + part)]
    else if p.None? then []
    else match ReadPart(part)
      case OptionalPart(_) => [IfNonEmpty(p.value.field, [WriteSlash, WriteField(p.value.field)])]
      case RestPart(_) => [IfNonEmpty(p.value.field, [WriteSlash, WriteTrimmed(p.value.field)])]
      case ParamPart(_) => [WriteSlash, WriteField(p.value.field)]
      case LiteralPart(_) => []
  }

  predicate TakesParam(part: string) {
    !IsStaticPart(part) && !ReadPart(part).LiteralPart?
  }

  function Prepend(stmts: seq<Stmt>, more: Option<seq<Stmt>>): Option<seq<Stmt>> {
    if more.None? then None else Some(stmts + more.value)
  }

  /** Each part in turn, parameters used up in order; nothing when a part finds no slot left, which panics. */
  function EmitParts(parts: seq<string>, ps: seq<LinkParam>): Option<seq<Stmt>>
    decreases |parts|
  {
    if |parts| == 0 then Some([])
    else if !TakesParam(parts[0]) then Prepend(EmitPart(parts[0], None), EmitParts(parts[1..], ps))
    else if |ps| == 0 then None
    else Prepend(EmitPart(parts[0], Some(ps[0])), EmitParts(parts[1..], ps[1..]))
  }

  /** How many parts take a slot. */
  function SlotsTaken(parts: seq<string>): nat {
    if |parts| == 0 then 0 else (if TakesParam(parts[0]) then 1 else 0) + SlotsTaken(parts[1..])
  }

  /** The emitter gets through if and only if there are slots for all parts that take one. */
  lemma {:induction false} EmitsExactly(parts: seq<string>, ps: seq<LinkParam>)
    ensures EmitParts(parts, ps).Some? <==> SlotsTaken(parts) <= |ps|
    decreases |parts|
  {
    if |parts| > 0 {
      EmitsExactly(parts[1..], if TakesParam(parts[0]) && |ps| > 0 then ps[1..] else ps);
    }
  }

  lemma PrependTwice(a: seq<Stmt>, b: seq<Stmt>, more: Option<seq<Stmt>>)
    ensures Prepend(a, Prepend(b, more)) == Prepend(a + b, more)
  {
    if more.Some? {
      assert a + (b + more.value) == a + b + more.value;
    }
  }

  lemma PrependNothing(out: seq<Stmt>, more: Option<seq<Stmt>>)
    ensures Prepend([], more) == more && Prepend(out, Some([])) == Some(out)
  {
    assert out + [] == out;
    if more.Some? {
      assert [] + more.value == more.value;
    }
  }

  /** The loop: every turn emits part i and steps the slot index, or indexes out of range. */
  method EmitAll(parts: seq<string>, ps: seq<LinkParam>) returns (stmts: Option<seq<Stmt>>)
    ensures stmts == EmitParts(parts, ps)
  {
    var out: seq<Stmt> := [];
    var pi := 0;
    PrependNothing(out, EmitParts(parts, ps));
    for i := 0 to |parts|
      invariant 0 <= pi <= |ps|
      invariant EmitParts(parts, ps) == Prepend(out, EmitParts(parts[i..], ps[pi..]))
    {
      assert parts[i..][1..] == parts[i + 1..];
      var part := EmitPart(parts[i], None);
      if TakesParam(parts[i]) {
        if pi >= |ps| {
          return None;
        }
        assert ps[pi..][1..] == ps[pi + 1..];
        part := EmitPart(parts[i], Some(ps[pi]));
        pi := pi + 1;
      }
      PrependTwice(out, part, EmitParts(parts[i + 1..], ps[pi..]));
      out := out + part;
    }
    PrependNothing(out, None);
    return Some(out);
  }

  /** What the builder is given for a pattern: a lone slash when it has no parts. */
  function BuildStmts(pattern: string, ps: seq<LinkParam>): Option<seq<Stmt>> {
    if |SplitPattern(pattern)| == 0 then Some([WriteSlash]) else EmitParts(SplitPattern(pattern), ps)
  }

  /** emitLinkBuild: panics if and only if the pattern has more bracketed parts than the route has slots. */
  method EmitLinkBuild(pattern: string, ps: seq<LinkParam>) returns (stmts: Option<seq<Stmt>>)
    ensures stmts == BuildStmts(pattern, ps)
    ensures stmts.Some? <==> SlotsTaken(SplitPattern(pattern)) <= |ps|
  {
    var parts := SplitPattern(pattern);
    stmts := EmitAll(parts, ps);
    if |parts| == 0 {
      stmts := Some([WriteSlash]);
    }
    EmitsExactly(parts, ps);
  }

  function SplitPattern(pattern: string): seq<string> {
    var trimmed := TrimPrefix(pattern, "/");
    if trimmed == "" then [] else Split(trimmed, '/')
  }

  /** emitLinkHelper. */
  function EmitHelper(pattern: string, ps: seq<LinkParam>): Option<Helper> {
    if |ps| == 0 then Some(ReturnConstant(pattern))
    else if BuildStmts(pattern, ps).None? then None
    else Some(Build(BuildStmts(pattern, ps).value))
  }

  /** A part with a stray bracket, which no scanned route has: Link writes it, the emitted helper does not. */
  lemma StrayBracket(part: string, params: Params)
    requires ReadPart(part).LiteralPart?
    ensures PieceOf(ReadPart(part), params) == Ok([part])
    ensures EmitParts([part], []) == Some(if '[' in part || ']' in part then [] else [WriteLiteral("/" + part)])
  {
    assert [part][1..] == [] && EmitParts([], []) == Some([]);
    PrependNothing(EmitPart(part, None), None);
  }

  // ---------------------------------------------------------- running a helper

  type Struct = map<string, string>

  function Exec(stmt: Stmt, p: Struct): string {
    match stmt
    case WriteLiteral(text) => text
    case WriteSlash => "/"
    case WriteField(field) => Get(p, field)
    case WriteTrimmed(field) => TrimPrefix(Get(p, field), "/")
    case IfNonEmpty(field, body) => if Get(p, field) == "" then "" else ExecAll(body, p)
  }

  function ExecAll(stmts: seq<Stmt>, p: Struct): string {
    if |stmts| == 0 then "" else Exec(stmts[0], p) + ExecAll(stmts[1..], p)
  }

  function RunHelper(h: Helper, p: Struct): string {
    match h
    case ReturnConstant(text) => text
    case Build(stmts) => ExecAll(stmts, p)
  }

  // ------------------------------------------------------ helper against Link

  /** The struct holds, in each slot's field, the value of that slot's parameter. */
  predicate Binds(ps: seq<LinkParam>, params: Params, p: Struct) {
    forall i :: 0 <= i < |ps| ==> Get(p, ps[i].field) == Get(params, ps[i].name)
  }

  lemma {:induction false} ExecAppend(a: seq<Stmt>, b: seq<Stmt>, p: Struct)
    ensures ExecAll(a + b, p) == ExecAll(a, p) + ExecAll(b, p)
  {
    if |a| == 0 {
      assert a + b == b;
    } else {
      assert (a + b)[1..] == a[1..] + b;
      ExecAppend(a[1..], b, p);
    }
  }

  lemma ExecOne(stmt: Stmt, p: Struct)
    ensures ExecAll([stmt], p) == Exec(stmt, p)
  {
  }

  lemma ExecTwo(x: Stmt, y: Stmt, p: Struct)
    ensures ExecAll([x, y], p) == Exec(x, p) + Exec(y, p)
  {
    assert [x, y][1..] == [y];
    ExecOne(y, p);
  }

  lemma DynamicIsBracketed(s: Segment)
    requires GoodSegment(s)
    ensures IsStaticPart(Print(s)) <==> s.Static?
    ensures TakesParam(Print(s)) <==> !s.Static?
  {
    PrintedReads(s);
    if !s.Static? {
      assert Print(s)[0] == '[';
    }
  }

  /** The statements for one segment write its piece after a slash, or nothing. */
  lemma EmitsItsPiece(s: Segment, slot: Option<LinkParam>, params: Params, p: Struct)
    requires GoodSegment(s)
    requires !s.Static? ==> slot.Some? && Get(p, slot.value.field) == Get(params, s.name)
    ensures ExecAll(EmitPart(Print(s), slot), p) == Slashed(Piece(s, params))
  {
    DynamicIsBracketed(s);
    PrintedReads(s);
    PartWritesPiece(Print(s), s, slot, params, p);
  }

  lemma PartWritesPiece(part: string, s: Segment, slot: Option<LinkParam>, params: Params, p: Struct)
    requires ReadPart(part) == PartOf(s) && (IsStaticPart(part) <==> s.Static?) && (s.Static? ==> part == s.value)
    requires !s.Static? ==> slot.Some? && Get(p, slot.value.field) == Get(params, s.name)
    ensures ExecAll(EmitPart(part, slot), p) == Slashed(Piece(s, params))
  {
    SlashedOne(Piece(s, params));
    match s
    case Static(value) => ExecOne(WriteLiteral("/" + value), p);
    case Param(_, _) => ExecTwo(WriteSlash, WriteField(slot.value.field), p);
    case Optional(_, _) =>
      ExecOne(IfNonEmpty(slot.value.field, [WriteSlash, WriteField(slot.value.field)]), p);
      ExecTwo(WriteSlash, WriteField(slot.value.field), p);
    case Rest(_, _) =>
      ExecOne(IfNonEmpty(slot.value.field, [WriteSlash, WriteTrimmed(slot.value.field)]), p);
      ExecTwo(WriteSlash, WriteTrimmed(slot.value.field), p);
  }

  lemma SlashedJoin(piece: seq<string>, pieces: seq<string>)
    requires |piece| <= 1
    ensures Slashed(piece + pieces) == Slashed(piece) + Slashed(pieces)
  {
    SlashedOne(piece);
    if |piece| == 1 {
      assert piece == [piece[0]];
      SlashedCons(piece[0], pieces);
    } else {
      assert piece + pieces == pieces;
    }
  }

  lemma PrintAllTail(segs: seq<Segment>)
    requires |segs| > 0
    ensures PrintAll(segs)[0] == Print(segs[0]) && PrintAll(segs)[1..] == PrintAll(segs[1..])
  {
  }

  /** One part's statements in front of the others'. */
  lemma PieceThenMore(part: seq<Stmt>, more: Option<seq<Stmt>>, piece: seq<string>, pieces: seq<string>, p: Struct)
    requires |piece| <= 1 && ExecAll(part, p) == Slashed(piece)
    requires more.Some? && ExecAll(more.value, p) == Slashed(pieces)
    ensures var code := Prepend(part, more); code.Some? && ExecAll(code.value, p) == Slashed(piece + pieces)
  {
    SlashedJoin(piece, pieces);
    ExecAppend(part, more.value, p);
  }

  lemma {:induction false} EmittedCodeWrites(segs: seq<Segment>, used: map<string, nat>, params: Params, p: Struct)
    requires forall i :: 0 <= i < |segs| ==> GoodSegment(segs[i])
    requires Binds(CollectFrom(segs, used), params, p)
    ensures var code := EmitParts(PrintAll(segs), CollectFrom(segs, used));
      code.Some? && ExecAll(code.value, p) == Slashed(Pieces(segs, params))
    decreases |segs|
  {
    if |segs| > 0 {
      var s, rest, ps := segs[0], segs[1..], CollectFrom(segs, used);
      PrintAllTail(segs);
      DynamicIsBracketed(s);
      if s.Static? {
        EmittedCodeWrites(rest, used, params, p);
        EmitsItsPiece(s, None, params, p);
        PieceThenMore(EmitPart(Print(s), None), EmitParts(PrintAll(rest), ps), Piece(s, params), Pieces(rest, params),
                      p);
      } else {
        var more := CollectFrom(rest, NextField(used, s.name).1);
        SlotsOfRest(segs, used, params, p);
        EmittedCodeWrites(rest, NextField(used, s.name).1, params, p);
        EmitsItsPiece(s, Some(ps[0]), params, p);
        PieceThenMore(EmitPart(Print(s), Some(ps[0])), EmitParts(PrintAll(rest), more), Piece(s, params),
                      Pieces(rest, params), p);
      }
    }
  }

  lemma SlotsOfRest(segs: seq<Segment>, used: map<string, nat>, params: Params, p: Struct)
    requires |segs| > 0 && !segs[0].Static? && Binds(CollectFrom(segs, used), params, p)
    ensures var ps, more := CollectFrom(segs, used), CollectFrom(segs[1..], NextField(used, segs[0].name).1);
      |ps| > 0 && ps[1..] == more && Binds(more, params, p) && Get(p, ps[0].field) == Get(params, segs[0].name)
  {
    var ps, more := CollectFrom(segs, used), CollectFrom(segs[1..], NextField(used, segs[0].name).1);
    assert ps[1..] == more;
    assert forall i :: 0 <= i < |more| ==> more[i] == ps[i + 1];
  }

  lemma {:induction false} NoSlots(segs: seq<Segment>, used: map<string, nat>, params: Params)
    ensures |CollectFrom(segs, used)| == 0 <==> forall i :: 0 <= i < |segs| ==> segs[i].Static?
    ensures |CollectFrom(segs, used)| == 0 ==> Pieces(segs, params) == PrintAll(segs)
    decreases |segs|
  {
    if |segs| > 0 {
      assert forall i :: 0 < i < |segs| ==> segs[i] == segs[1..][i - 1];
      if segs[0].Static? {
        NoSlots(segs[1..], used, params);
        PrintAllTail(segs);
        assert PrintAll(segs) == [Print(segs[0])] + PrintAll(segs[1..]);
      }
    }
  }

  lemma PatternSplits(segs: seq<Segment>)
    requires forall i :: 0 <= i < |segs| ==> GoodSegment(segs[i])
    ensures SplitPattern(BuildPattern(segs)) == PrintAll(segs)
  {
    var pattern := BuildPattern(segs);
    assert pattern[..1] == "/";
    if |segs| > 0 {
      forall i | 0 <= i < |segs|
        ensures '/' !in PrintAll(segs)[i]
      {
        PrintHasNoSlash(segs[i]);
      }
      PrintHasNoSlash(segs[0]);
      JoinNonEmpty(PrintAll(segs));
      assert pattern[1..] == Join(PrintAll(segs), "/");
      SplitJoin(PrintAll(segs), '/');
    } else {
      assert pattern[1..] == "";
    }
  }

  /**
   The helper returns what Link returns, except that when every segment is an absent optional
   or rest one it returns the empty string where Link returns "/".
   */
  predicate MatchesLink(segs: seq<Segment>, params: Params, p: Struct) {
    var link := LinkValue(BuildPattern(segs), params);
    var helper := EmitHelper(BuildPattern(segs), Collected(segs));
    && link.Ok?
    && helper.Some?
    && var built := RunHelper(helper.value, p);
    && (Pieces(segs, params) != [] || segs == [] ==> built == link.value)
    && (Pieces(segs, params) == [] && segs != [] ==> built == "" && link.value == "/")
  }

  /** Whatever struct holds the parameters. */
  lemma EmittedMatchesLink(segs: seq<Segment>, params: Params, p: Struct)
    requires forall i :: 0 <= i < |segs| ==> GoodSegment(segs[i])
    requires HasRequired(segs, params) && Binds(Collected(segs), params, p)
    ensures MatchesLink(segs, params, p)
  {
    LinkOnRoute(segs, params);
    NoSlots(segs, map[], params);
    if |Collected(segs)| == 0 {
      if |segs| > 0 {
        SlashedIsJoined(PrintAll(segs));
      }
    } else {
      PatternSplits(segs);
      EmittedCodeWrites(segs, map[], params, p);
    }
  }

  /** The struct a caller fills in for some parameters. */
  function StructFor(ps: seq<LinkParam>, params: Params): Struct {
    if |ps| == 0 then map[]
    else StructFor(ps[..|ps| - 1], params)[ps[|ps| - 1].field := Get(params, ps[|ps| - 1].name)]
  }

  /** With distinct fields every parameter assignment can be written down. */
  lemma {:induction false} StructBinds(ps: seq<LinkParam>, params: Params)
    requires forall i, j :: 0 <= i < j < |ps| ==> ps[i].field != ps[j].field
    ensures Binds(ps, params, StructFor(ps, params))
  {
    if |ps| > 0 {
      var n := |ps| - 1;
      StructBinds(ps[..n], params);
      forall i | 0 <= i < n
        ensures Get(StructFor(ps, params), ps[i].field) == Get(params, ps[i].name)
      {
        assert ps[..n][i] == ps[i];
      }
    }
  }

  /**
   For every scanned route: the generated struct can be declared if and only if the route's names
   fit; then every assignment of the parameters has a struct, and with that one, or any other
   that holds them, the helper returns what Link returns.
   */
  lemma HelperMatchesLink(segs: seq<Segment>, params: Params) returns (p: Struct)
    requires forall i :: 0 <= i < |segs| ==> GoodSegment(segs[i])
    requires HasRequired(segs, params)
    ensures Usable(Collected(segs)) <==> FitNames(segs)
    ensures FitNames(segs) ==> Binds(Collected(segs), params, p)
    ensures forall q :: Binds(Collected(segs), params, q) ==> MatchesLink(segs, params, q)
  {
    p := StructFor(Collected(segs), params);
    UsableExactly(segs);
    if FitNames(segs) {
      StructBinds(Collected(segs), params);
    }
    forall q | Binds(Collected(segs), params, q)
      ensures MatchesLink(segs, params, q)
    {
      EmittedMatchesLink(segs, params, q);
    }
  }
}
