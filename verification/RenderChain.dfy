/**
 The layout chain the manifest emitter writes for a route: lines of generated code,
 a parser that reads them back as statements, an interpreter for the statements,
 and the nested composition they are meant to be.
 */
module RenderChain {
  import opened Text

  // ------------------------------------------------------------- generated lines

  datatype DataExpr = NilData | DataAt(i: nat)

  /** The lines of a chain body; `inner` is the call the chain is built around. */
  datatype Line =
    | WriteOpen                                // w.WriteString(server.BlockOpen)
    | WriteClose                               // w.WriteString(server.BlockClose)
    | IfFunc                                   // if err := func(w) error {
    | EndIfFunc                                // }(w); err != nil {
    | IfInner                                  // if err := inner; err != nil {
    | ReturnErr                                // return err
    | EndBlock                                 // }
    | ReturnNil                                // return nil
    | ReturnInner                              // return inner
    | OpenLayout(alias: string, data: DataExpr) // return render__layout__alias(w, ctx, data, func(w) error {
    | CloseLayout                              // }, pageState)

  /** The source builder: lines and an indentation depth that stops at zero. */
  class Builder {
    var lines: seq<Line>
    var indent: nat

    constructor ()
      ensures lines == [] && indent == 0
    {
      lines, indent := [], 0;
    }

    method Add(l: Line)
      modifies this`lines
      ensures lines == old(lines) + [l]
    {
      lines := lines + [l];
    }

    method Indent()
      modifies this`indent
      ensures indent == old(indent) + 1
    {
      indent := indent + 1;
    }

    method Dedent()
      modifies this`indent
      ensures indent == if old(indent) > 0 then old(indent) - 1 else 0
    {
      if indent > 0 {
        indent := indent - 1;
      }
    }
  }

  // ------------------------------------------------------------------ statements

  datatype Mark = BlockOpen | BlockClose

  datatype Code =
    | Write(mark: Mark, next: Code)
    | Try(call: Call, next: Code)
    | Return(call: Call)
    | Nil

  datatype Call =
    | Inner
    | Closure(body: Code)
    | Layout(alias: string, data: DataExpr, children: Code)

  datatype Parsed = Parsed(code: Code, rest: seq<Line>)

  /** What has to follow the call of an if statement: return the error, close the block. */
  predicate Guard(lines: seq<Line>, end: nat) {
    |lines| >= end + 2 && lines[end].ReturnErr? && lines[end + 1].EndBlock?
  }

  /** One function body off the front of the lines. */
  function Parse(lines: seq<Line>): (r: Option<Parsed>)
    ensures r.Some? ==> |r.value.rest| < |lines|
    decreases |lines|
  {
    if |lines| == 0 then None
    else match lines[0]
      case WriteOpen => ParseWrite(BlockOpen, Parse(lines[1..]))
      case WriteClose => ParseWrite(BlockClose, Parse(lines[1..]))
      case ReturnNil => Some(Parsed(Nil, lines[1..]))
      case ReturnInner => Some(Parsed(Return(Inner), lines[1..]))
      case IfInner => if Guard(lines, 1) then ParseTry(Inner, Parse(lines[3..])) else None
      case IfFunc =>
        var body := Parse(lines[1..]);
        if body.None? then None
        else
          var rest := body.value.rest;
          if |rest| > 0 && rest[0].EndIfFunc? && Guard(rest, 1) then
            ParseTry(Closure(body.value.code), Parse(rest[3..]))
          else None
      case OpenLayout(alias, data) =>
        var body := Parse(lines[1..]);
        if body.Some? && |body.value.rest| > 0 && body.value.rest[0].CloseLayout? then
          Some(Parsed(Return(Layout(alias, data, body.value.code)), body.value.rest[1..]))
        else None
      case _ => None
  }

  function ParseWrite(m: Mark, r: Option<Parsed>): Option<Parsed> {
    if r.None? then None else Some(Parsed(Write(m, r.value.code), r.value.rest))
  }

  function ParseTry(c: Call, r: Option<Parsed>): Option<Parsed> {
    if r.None? then None else Some(Parsed(Try(c, r.value.code), r.value.rest))
  }

  /** The lines are one whole function body: everything opened is closed, and nothing else is. */
  predicate Balanced(lines: seq<Line>) {
    Parse(lines).Some? && Parse(lines).value.rest == []
  }

  // ----------------------------------------------------------------- emitted lines

  type Registry = map<string, string>

  function DataFor(nilData: bool, i: nat): DataExpr {
    if nilData then NilData else DataAt(i)
  }

  /** The opening lines for the layouts from the i-th on; a layout that is not registered is passed over. */
  function OpensFrom(paths: seq<string>, reg: Registry, nilData: bool, i: nat): seq<Line>
    decreases |paths| - i
  {
    if i >= |paths| then []
    else if paths[i] in reg then
      [OpenLayout(reg[paths[i]], DataFor(nilData, i))] + OpensFrom(paths, reg, nilData, i + 1)
    else OpensFrom(paths, reg, nilData, i + 1)
  }

  function Closes(n: nat): seq<Line> {
    if n == 0 then [] else [CloseLayout] + Closes(n - 1)
  }

  function Slot(wrap: bool): seq<Line> {
    if wrap then [WriteOpen, IfInner, ReturnErr, EndBlock, WriteClose, ReturnNil] else [ReturnInner]
  }

  function NestLines(paths: seq<string>, reg: Registry, nilData: bool, wrap: bool): seq<Line> {
    OpensFrom(paths, reg, nilData, 0) + Slot(wrap) + Closes(|paths|)
  }

  function ChainLines(paths: seq<string>, reg: Registry): seq<Line> {
    if paths == [] then [ReturnInner]
    else
      [WriteOpen, IfFunc] + NestLines(paths, reg, false, true) + TAIL
  }

  function ErrorChainLines(paths: seq<string>, reg: Registry): seq<Line> {
    if paths == [] then [ReturnInner] else NestLines(paths, reg, true, false)
  }

  // ------------------------------------------------------------------ the emitter

  function IndentAfter(indent: nat, n: nat): nat {
    if n <= indent then indent - n else 0
  }

  /** How many of the layouts from the i-th on are registered. */
  function Registered(paths: seq<string>, reg: Registry, i: nat): (n: nat)
    ensures i <= |paths| ==> n <= |paths| - i
    decreases |paths| - i
  {
    if i >= |paths| then 0 else (if paths[i] in reg then 1 else 0) + Registered(paths, reg, i + 1)
  }

  method OpenCalls(b: Builder, paths: seq<string>, reg: Registry, nilData: bool)
    modifies b
    ensures b.lines == old(b.lines) + OpensFrom(paths, reg, nilData, 0)
    ensures b.indent == old(b.indent) + Registered(paths, reg, 0)
  {
    var i := 0;
    while i < |paths|
      invariant i <= |paths|
      invariant b.lines + OpensFrom(paths, reg, nilData, i) == old(b.lines) + OpensFrom(paths, reg, nilData, 0)
      invariant b.indent + Registered(paths, reg, i) == old(b.indent) + Registered(paths, reg, 0)
    {
      if paths[i] in reg {
        ghost var before := b.lines;
        b.Add(OpenLayout(reg[paths[i]], DataFor(nilData, i)));
        b.Indent();
        assert b.lines + OpensFrom(paths, reg, nilData, i + 1) == before + OpensFrom(paths, reg, nilData, i);
      }
      i := i + 1;
    }
  }

  method CloseCalls(b: Builder, n: nat)
    modifies b
    ensures b.lines == old(b.lines) + Closes(n)
    ensures b.indent == IndentAfter(old(b.indent), n)
  {
    var i := 0;
    while i < n
      invariant i <= n
      invariant b.lines + Closes(n - i) == old(b.lines) + Closes(n)
      invariant b.indent == IndentAfter(old(b.indent), i)
    {
      ghost var before := b.lines;
      b.Dedent();
      b.Add(CloseLayout);
      assert b.lines + Closes(n - i - 1) == before + Closes(n - i);
      i := i + 1;
    }
  }

  method WriteSlot(b: Builder, wrap: bool)
    modifies b
    ensures b.lines == old(b.lines) + Slot(wrap) && b.indent == old(b.indent)
  {
    if wrap {
      b.Add(WriteOpen);
      b.Add(IfInner);
      b.Indent();
      b.Add(ReturnErr);
      b.Dedent();
      b.Add(EndBlock);
      b.Add(WriteClose);
      b.Add(ReturnNil);
    } else {
      b.Add(ReturnInner);
    }
  }

  /** openLayoutCalls. */
  method OpenLayoutCalls(b: Builder, paths: seq<string>, reg: Registry, nilData: bool, wrap: bool)
    modifies b
    ensures b.lines == old(b.lines) + NestLines(paths, reg, nilData, wrap)
    ensures b.indent == IndentAfter(old(b.indent) + Registered(paths, reg, 0), |paths|)
  {
    OpenCalls(b, paths, reg, nilData);
    WriteSlot(b, wrap);
    CloseCalls(b, |paths|);
  }

  /** emitChainBody. */
  method EmitChainBody(b: Builder, paths: seq<string>, reg: Registry)
    modifies b
    ensures b.lines == old(b.lines) + ChainLines(paths, reg)
    ensures Registered(paths, reg, 0) == |paths| ==> b.indent == old(b.indent)
  {
    if |paths| == 0 {
      b.Add(ReturnInner);
      return;
    }
    ghost var start := b.lines;
    b.Add(WriteOpen);
    b.Add(IfFunc);
    b.Indent();
    OpenLayoutCalls(b, paths, reg, false, true);
    b.Dedent();
    WriteTail(b);
    ChainParts(start, NestLines(paths, reg, false, true));
  }

  const TAIL: seq<Line> := [EndIfFunc, ReturnErr, EndBlock, WriteClose, ReturnNil]

  lemma ChainParts(start: seq<Line>, nest: seq<Line>)
    ensures start + [WriteOpen] + [IfFunc] + nest + TAIL == start + ([WriteOpen, IfFunc] + nest + TAIL)
  {
  }

  method WriteTail(b: Builder)
    modifies b
    ensures b.lines == old(b.lines) + TAIL
    ensures b.indent == old(b.indent)
  {
    b.Add(EndIfFunc);
    b.Indent();
    b.Add(ReturnErr);
    b.Dedent();
    b.Add(EndBlock);
    b.Add(WriteClose);
    b.Add(ReturnNil);
  }

  /** emitErrorChainBody. */
  method EmitErrorChainBody(b: Builder, paths: seq<string>, reg: Registry)
    modifies b
    ensures b.lines == old(b.lines) + ErrorChainLines(paths, reg)
    ensures Registered(paths, reg, 0) == |paths| ==> b.indent == old(b.indent)
  {
    if |paths| == 0 {
      b.Add(ReturnInner);
      return;
    }
    OpenLayoutCalls(b, paths, reg, true, false);
  }

  // ---------------------------------------------------------- reading lines back

  /** The statements around the inner call. */
  function SlotCode(wrap: bool): Code {
    if wrap then Write(BlockOpen, Try(Inner, Write(BlockClose, Nil))) else Return(Inner)
  }

  /** The nested calls of the registered layouts from the i-th on. */
  function NestCode(paths: seq<string>, reg: Registry, nilData: bool, wrap: bool, i: nat): Code
    decreases |paths| - i
  {
    if i >= |paths| then SlotCode(wrap)
    else if paths[i] in reg then
      Return(Layout(reg[paths[i]], DataFor(nilData, i), NestCode(paths, reg, nilData, wrap, i + 1)))
    else NestCode(paths, reg, nilData, wrap, i + 1)
  }

  lemma SlotParses(wrap: bool, tail: seq<Line>)
    ensures Parse(Slot(wrap) + tail) == Some(Parsed(SlotCode(wrap), tail))
  {
    var lines := Slot(wrap) + tail;
    if wrap {
      var t1 := [IfInner, ReturnErr, EndBlock, WriteClose, ReturnNil] + tail;
      var t2 := [WriteClose, ReturnNil] + tail;
      assert lines[1..] == t1 && t1[3..] == t2 && t2[1..] == [ReturnNil] + tail;
      assert ([ReturnNil] + tail)[1..] == tail;
      assert Parse([ReturnNil] + tail) == Some(Parsed(Nil, tail));
      assert Parse(t2) == Some(Parsed(Write(BlockClose, Nil), tail));
      assert Parse(t1) == Some(Parsed(Try(Inner, Write(BlockClose, Nil)), tail));
    } else {
      assert lines[1..] == tail;
    }
  }

  lemma OpenParses(alias: string, data: DataExpr, rest: seq<Line>, code: Code, tail: seq<Line>)
    requires Parse(rest) == Some(Parsed(code, [CloseLayout] + tail))
    ensures Parse([OpenLayout(alias, data)] + rest) == Some(Parsed(Return(Layout(alias, data, code)), tail))
  {
  }

  lemma MoreCloses(k: nat, tail: seq<Line>)
    ensures Closes(k + 1) + tail == [CloseLayout] + (Closes(k) + tail)
  {
  }

  lemma WrapParses(open: Line, deeper: seq<Line>, rest: seq<Line>, code: Code, extra: nat, tail: seq<Line>)
    requires open.OpenLayout? && Parse(deeper + rest) == Some(Parsed(code, Closes(extra + 1) + tail))
    ensures Parse(([open] + deeper) + rest)
         == Some(Parsed(Return(Layout(open.alias, open.data, code)), Closes(extra) + tail))
  {
    MoreCloses(extra, tail);
    OpenParses(open.alias, open.data, deeper + rest, code, Closes(extra) + tail);
    assert ([open] + deeper) + rest == [open] + (deeper + rest);
  }

  function Rest(wrap: bool, closes: nat, tail: seq<Line>): seq<Line> {
    Slot(wrap) + (Closes(closes) + tail)
  }

  /** The lines read as the code, with these lines left over. */
  predicate Reads(lines: seq<Line>, code: Code, rest: seq<Line>) {
    Parse(lines) == Some(Parsed(code, rest))
  }

  lemma NestBase(wrap: bool, extra: nat, tail: seq<Line>)
    ensures Reads([] + Rest(wrap, extra, tail), SlotCode(wrap), Closes(extra) + tail)
  {
    SlotParses(wrap, Closes(extra) + tail);
    assert [] + Rest(wrap, extra, tail) == Rest(wrap, extra, tail);
  }

  lemma NestOne(open: Line, deeper: seq<Line>, wrap: bool, closes: nat, code: Code, extra: nat, tail: seq<Line>)
    requires open.OpenLayout? && Reads(deeper + Rest(wrap, closes, tail), code, Closes(extra + 1) + tail)
    ensures Reads(([open] + deeper) + Rest(wrap, closes, tail),
                  Return(Layout(open.alias, open.data, code)), Closes(extra) + tail)
  {
    WrapParses(open, deeper, Rest(wrap, closes, tail), code, extra, tail);
  }

  /**
   The nested calls parse, and leave over exactly the closing lines that have no opening one.
   */
  lemma {:induction false} NestParses(paths: seq<string>, reg: Registry, nilData: bool, wrap: bool, i: nat, extra: nat,
                                      tail: seq<Line>)
    requires i <= |paths|
    ensures Reads(OpensFrom(paths, reg, nilData, i) + Rest(wrap, Registered(paths, reg, i) + extra, tail),
                  NestCode(paths, reg, nilData, wrap, i), Closes(extra) + tail)
    decreases |paths| - i
  {
    if i == |paths| {
      NestBase(wrap, extra, tail);
    } else {
      var more := if paths[i] in reg then 1 else 0;
      NestParses(paths, reg, nilData, wrap, i + 1, extra + more, tail);
      NestNext(paths, reg, nilData, wrap, i, extra, tail, OpensFrom(paths, reg, nilData, i + 1),
               Registered(paths, reg, i + 1), NestCode(paths, reg, nilData, wrap, i + 1));
    }
  }

  lemma NestNext(paths: seq<string>, reg: Registry, nilData: bool, wrap: bool, i: nat, extra: nat, tail: seq<Line>,
                 deeper: seq<Line>, count: nat, code: Code)
    requires i < |paths| && deeper == OpensFrom(paths, reg, nilData, i + 1) && count == Registered(paths, reg, i + 1)
    requires code == NestCode(paths, reg, nilData, wrap, i + 1)
    requires var more := if paths[i] in reg then 1 else 0;
      Reads(deeper + Rest(wrap, count + (extra + more), tail), code, Closes(extra + more) + tail)
    ensures Reads(OpensFrom(paths, reg, nilData, i) + Rest(wrap, Registered(paths, reg, i) + extra, tail),
                  NestCode(paths, reg, nilData, wrap, i), Closes(extra) + tail)
  {
    if paths[i] in reg {
      NestOne(OpenLayout(reg[paths[i]], DataFor(nilData, i)), deeper, wrap, count + (extra + 1), code, extra, tail);
    }
  }

  predicate AllRegistered(paths: seq<string>, reg: Registry) {
    forall p :: p in paths ==> p in reg
  }

  lemma {:induction false} RegisteredCount(paths: seq<string>, reg: Registry, i: nat)
    requires i <= |paths|
    ensures Registered(paths, reg, i) == |paths| - i <==> AllRegistered(paths[i..], reg)
    decreases |paths| - i
  {
    if i < |paths| {
      RegisteredCount(paths, reg, i + 1);
      assert paths[i..] == [paths[i]] + paths[i + 1..];
    }
  }

  lemma AllCounted(paths: seq<string>, reg: Registry)
    ensures Registered(paths, reg, 0) == |paths| <==> AllRegistered(paths, reg)
  {
    RegisteredCount(paths, reg, 0);
    assert paths[0..] == paths;
  }

  lemma NestLinesParse(paths: seq<string>, reg: Registry, nilData: bool, wrap: bool, tail: seq<Line>)
    ensures Parse(NestLines(paths, reg, nilData, wrap) + tail)
         == Some(Parsed(NestCode(paths, reg, nilData, wrap, 0), Closes(|paths| - Registered(paths, reg, 0)) + tail))
  {
    var extra := |paths| - Registered(paths, reg, 0);
    NestParses(paths, reg, nilData, wrap, 0, extra, tail);
    NestRegroup(OpensFrom(paths, reg, nilData, 0), Slot(wrap), Closes(|paths|), tail);
  }

  lemma NestRegroup(a: seq<Line>, b: seq<Line>, c: seq<Line>, d: seq<Line>)
    ensures a + b + c + d == a + (b + (c + d))
  {
  }

  function ChainCode(paths: seq<string>, reg: Registry): Code {
    if paths == [] then Return(Inner)
    else Write(BlockOpen, Try(Closure(NestCode(paths, reg, false, true, 0)), Write(BlockClose, Nil)))
  }

  lemma TailParses(code: Code, body: seq<Line>, extra: nat)
    requires Parse(body) == Some(Parsed(code, Closes(extra) + TAIL))
    ensures Parse([IfFunc] + body)
         == if extra == 0 then Some(Parsed(Try(Closure(code), Write(BlockClose, Nil)), [])) else None
  {
    var lines := [IfFunc] + body;
    assert lines[1..] == body;
    if extra == 0 {
      assert Closes(0) + TAIL == TAIL;
      assert TAIL[3..] == [WriteClose, ReturnNil] && [WriteClose, ReturnNil][1..] == [ReturnNil];
      assert [ReturnNil][1..] == [];
      assert Parse([ReturnNil]) == Some(Parsed(Nil, []));
      assert Parse([WriteClose, ReturnNil]) == Some(Parsed(Write(BlockClose, Nil), []));
    } else {
      assert (Closes(extra) + TAIL)[0] == CloseLayout;
    }
  }

  /**
   The emitted chain is a whole function body if and only if every layout of the route is
   registered; then it is the nested calls, in order.
   */
  lemma ChainBalanced(paths: seq<string>, reg: Registry)
    ensures Balanced(ChainLines(paths, reg)) <==> AllRegistered(paths, reg)
    ensures AllRegistered(paths, reg) ==> Parse(ChainLines(paths, reg)).value.code == ChainCode(paths, reg)
  {
    AllCounted(paths, reg);
    if paths == [] {
      assert [ReturnInner][1..] == [];
    } else {
      var nest := NestLines(paths, reg, false, true);
      var body := nest + TAIL;
      NestLinesParse(paths, reg, false, true, TAIL);
      TailParses(NestCode(paths, reg, false, true, 0), body, |paths| - Registered(paths, reg, 0));
      ChainRegroup(paths, reg);
      assert ([WriteOpen] + ([IfFunc] + body))[1..] == [IfFunc] + body;
    }
  }

  lemma ChainRegroup(paths: seq<string>, reg: Registry)
    requires paths != []
    ensures ChainLines(paths, reg) == [WriteOpen] + ([IfFunc] + (NestLines(paths, reg, false, true) + TAIL))
  {
  }

  function ErrorChainCode(paths: seq<string>, reg: Registry): Code {
    NestCode(paths, reg, true, false, 0)
  }

  /** The same for the chain around an error page. */
  lemma ErrorChainBalanced(paths: seq<string>, reg: Registry)
    ensures Balanced(ErrorChainLines(paths, reg)) <==> AllRegistered(paths, reg)
    ensures AllRegistered(paths, reg) ==> Parse(ErrorChainLines(paths, reg)).value.code == ErrorChainCode(paths, reg)
  {
    AllCounted(paths, reg);
    if paths == [] {
      assert [ReturnInner][1..] == [];
    } else {
      var nest := NestLines(paths, reg, true, false);
      NestLinesParse(paths, reg, true, false, []);
      assert nest + [] == nest;
      var extra := |paths| - Registered(paths, reg, 0);
      assert Closes(extra) + [] == Closes(extra);
    }
  }
}
