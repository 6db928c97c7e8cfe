/** What a route's emitted layout chain does when it runs: the nested composition of its layouts. */
module ChainMeaning {
  import opened Text
  import opened RenderChain

  // ------------------------------------------------------------------ running it

  /** What a call wrote to its writer, and the error it returned. */
  datatype Outcome<E> = Outcome(out: string, err: Option<E>)

  /** One stretch of a layout's body, or the place where it renders its children. */
  datatype Piece = Markup(text: string) | ChildSlot

  /** What RenderLayoutSSR does with some data: head, body, and its own error. */
  datatype LayoutRun<E> = LayoutRun(head: string, pieces: seq<Piece>, err: Option<E>)

  /** Layout bodies by alias and data, where None is nil; the request's layout data, the inner call, the markers. */
  datatype Env<!D, E> = Env(
    layout: (string, Option<D>) -> LayoutRun<E>,
    datas: seq<Option<D>>,
    inner: Outcome<E>,
    open: string,
    close: string)

  function MarkText<D, E>(env: Env<D, E>, m: Mark): string {
    if m.BlockOpen? then env.open else env.close
  }

  /** layoutDataAt: the entry, or nil when there are too few. */
  function DataValue<D, E>(env: Env<D, E>, d: DataExpr): Option<D> {
    match d
    case NilData => None
    case DataAt(i) => if i < |env.datas| then env.datas[i] else None
  }

  /** A body with its children put in. */
  function Fill(pieces: seq<Piece>, child: string): string {
    if |pieces| == 0 then ""
    else
      var last := pieces[|pieces| - 1];
      Fill(pieces[..|pieces| - 1], child) + (if last.Markup? then last.text else child)
  }

  /** The layout adapter: its own error first, then the children's, else head and body. */
  function Adapt<E>(run: LayoutRun<E>, child: Outcome<E>): Outcome<E> {
    if run.err.Some? then Outcome("", run.err)
    else if ChildSlot in run.pieces && child.err.Some? then Outcome("", child.err)
    else Outcome(run.head + Fill(run.pieces, child.out), None)
  }

  function Eval<D, E>(env: Env<D, E>, c: Code): Outcome<E> {
    match c
    case Write(m, next) => var r := Eval(env, next); Outcome(MarkText(env, m) + r.out, r.err)
    case Try(call, next) =>
      var r := EvalCall(env, call);
      if r.err.Some? then r
      else
        var s := Eval(env, next);
        Outcome(r.out + s.out, s.err)
    case Return(call) => EvalCall(env, call)
    case Nil => Outcome("", None)
  }

  function EvalCall<D, E>(env: Env<D, E>, c: Call): Outcome<E> {
    match c
    case Inner => env.inner
    case Closure(body) => Eval(env, body)
    case Layout(alias, data, children) => Adapt(env.layout(alias, DataValue(env, data)), Eval(env, children))
  }

  /** Running generated lines: they have to be a whole function body. */
  function Run<D, E>(env: Env<D, E>, lines: seq<Line>): Option<Outcome<E>> {
    if Balanced(lines) then Some(Eval(env, Parse(lines).value.code)) else None
  }

  /**
   The emitted layout adapter: every child slot renders the children into a buffer of its own,
   and the first child error keeps later slots empty.
   */
  method RunAdapter<E>(run: LayoutRun<E>, child: Outcome<E>) returns (r: Outcome<E>)
    ensures r == Adapt(run, child)
  {
    var body, childErr := "", None;
    for i := 0 to |run.pieces|
      invariant childErr == if ChildSlot in run.pieces[..i] then child.err else None
      invariant childErr.None? ==> body == Fill(run.pieces[..i], child.out)
    {
      assert run.pieces[..i + 1] == run.pieces[..i] + [run.pieces[i]];
      match run.pieces[i]
      case Markup(text) => body := body + text;
      case ChildSlot =>
        if childErr.None? {
          if child.err.Some? {
            childErr := child.err;
          } else {
            body := body + child.out;
          }
        }
    }
    assert run.pieces[..|run.pieces|] == run.pieces;
    if run.err.Some? {
      return Outcome("", run.err);
    }
    if childErr.Some? {
      return Outcome("", childErr);
    }
    return Outcome((if run.head != "" then run.head else "") + body, None);
  }

  // ---------------------------------------------------------- the nested composition

  /** The first layout with its data around the second with its own around ... around the innermost outcome. */
  function Compose<D, E>(env: Env<D, E>, ls: seq<string>, ds: seq<Option<D>>, slot: Outcome<E>): Outcome<E>
    requires |ls| == |ds|
  {
    if |ls| == 0 then slot
    else Adapt(env.layout(ls[0], ds[0]), Compose(env, ls[1..], ds[1..], slot))
  }

  /** Block open, then the outcome, then block close unless it failed. */
  function Bracket<D, E>(env: Env<D, E>, o: Outcome<E>): Outcome<E> {
    Outcome(env.open + o.out + (if o.err.Some? then "" else env.close), o.err)
  }

  /** The data of n layouts: the i-th has the i-th entry, and nil when there are too few. */
  function DataOf<D>(datas: seq<Option<D>>, n: nat): seq<Option<D>> {
    seq(n, i requires 0 <= i < n => if i < |datas| then datas[i] else None)
  }

  function NoData<D>(n: nat): seq<Option<D>> {
    seq(n, _ => None)
  }

  /** A page inside its layouts, each with its data. */
  function PageInLayouts<D, E>(env: Env<D, E>, ls: seq<string>, ds: seq<Option<D>>): Outcome<E>
    requires |ls| == |ds|
  {
    if ls == [] then env.inner else Bracket(env, Compose(env, ls, ds, Bracket(env, env.inner)))
  }

  /** An error page inside the layouts that survive: no layout data, no markers. */
  function ErrorInLayouts<D, E>(env: Env<D, E>, ls: seq<string>): Outcome<E> {
    Compose(env, ls, NoData(|ls|), env.inner)
  }

  /** The aliases of a route's layouts. */
  function Aliases(paths: seq<string>, reg: Registry): seq<string>
    requires AllRegistered(paths, reg)
  {
    seq(|paths|, i requires 0 <= i < |paths| => assert paths[i] in paths; reg[paths[i]])
  }

  /** A call between the markers, its error returned at once. */
  lemma TryMeaning<D, E>(env: Env<D, E>, call: Call)
    ensures Eval(env, Write(BlockOpen, Try(call, Write(BlockClose, Nil)))) == Bracket(env, EvalCall(env, call))
  {
    var r, tail := EvalCall(env, call), Write(BlockClose, Nil);
    assert Eval(env, Nil) == Outcome("", None);
    assert env.close + "" == env.close;
    assert Eval(env, tail) == Outcome(env.close, None);
    assert Eval(env, Try(call, tail)) == if r.err.Some? then r else Outcome(r.out + env.close, None);
    assert env.open + (r.out + env.close) == env.open + r.out + env.close;
    assert env.open + r.out + "" == env.open + r.out;
  }

  lemma SlotMeaning<D, E>(env: Env<D, E>, wrap: bool)
    ensures Eval(env, SlotCode(wrap)) == if wrap then Bracket(env, env.inner) else env.inner
  {
    if wrap {
      TryMeaning(env, Inner);
    }
  }

  /** The data the lines from the i-th layout on ask for. */
  function AskedFrom<D, E>(env: Env<D, E>, nilData: bool, i: nat, n: nat): seq<Option<D>>
    requires i <= n
  {
    if nilData then NoData(n - i) else DataOf(env.datas, n)[i..]
  }

  lemma AskedNext<D, E>(env: Env<D, E>, nilData: bool, i: nat, n: nat)
    requires i < n
    ensures AskedFrom(env, nilData, i, n)[0] == DataValue(env, DataFor(nilData, i))
    ensures AskedFrom(env, nilData, i, n)[1..] == AskedFrom(env, nilData, i + 1, n)
  {
  }

  lemma {:induction false} NestMeaning<D, E>(env: Env<D, E>, paths: seq<string>, reg: Registry, nilData: bool,
                                              wrap: bool, i: nat)
    requires AllRegistered(paths, reg) && i <= |paths|
    ensures Eval(env, NestCode(paths, reg, nilData, wrap, i))
         == Compose(env, Aliases(paths, reg)[i..], AskedFrom(env, nilData, i, |paths|), Eval(env, SlotCode(wrap)))
    decreases |paths| - i
  {
    if i < |paths| {
      assert paths[i] in paths;
      NestMeaning(env, paths, reg, nilData, wrap, i + 1);
      AskedNext(env, nilData, i, |paths|);
      assert Aliases(paths, reg)[i..][1..] == Aliases(paths, reg)[i + 1..];
    }
  }

  /** Running the emitted chain of a route is rendering its page inside its layouts, the i-th with the i-th data. */
  lemma ChainComposes<D, E>(env: Env<D, E>, paths: seq<string>, reg: Registry)
    requires AllRegistered(paths, reg)
    ensures Run(env, ChainLines(paths, reg))
         == Some(PageInLayouts(env, Aliases(paths, reg), DataOf(env.datas, |paths|)))
  {
    ChainBalanced(paths, reg);
    if paths != [] {
      SlotMeaning(env, true);
      NestMeaning(env, paths, reg, false, true, 0);
      assert Aliases(paths, reg)[0..] == Aliases(paths, reg);
      assert AskedFrom(env, false, 0, |paths|) == DataOf(env.datas, |paths|);
      TryMeaning(env, Closure(NestCode(paths, reg, false, true, 0)));
    } else {
      assert EvalCall(env, Inner) == env.inner;
      assert Eval(env, Return(Inner)) == env.inner;
    }
  }

  /** Running the emitted error chain is rendering the error page inside the layouts left. */
  lemma ErrorChainComposes<D, E>(env: Env<D, E>, paths: seq<string>, reg: Registry)
    requires AllRegistered(paths, reg)
    ensures Run(env, ErrorChainLines(paths, reg)) == Some(ErrorInLayouts(env, Aliases(paths, reg)))
  {
    ErrorChainBalanced(paths, reg);
    SlotMeaning(env, false);
    NestMeaning(env, paths, reg, true, false, 0);
    assert Aliases(paths, reg)[0..] == Aliases(paths, reg);
  }

  // ------------------------------------------------------- what a layout writes

  function Texts(pieces: seq<Piece>): string {
    if |pieces| == 0 then ""
    else Texts(pieces[..|pieces| - 1]) + match pieces[|pieces| - 1] case Markup(text) => text case ChildSlot => ""
  }

  lemma {:induction false} FillAppend(a: seq<Piece>, b: seq<Piece>, child: string)
    ensures Fill(a + b, child) == Fill(a, child) + Fill(b, child)
  {
    if |b| == 0 {
      assert a + b == a;
    } else {
      var n := |b| - 1;
      FillAppend(a, b[..n], child);
      FillSnoc(a + b[..n], b[n], child);
      FillSnoc(b[..n], b[n], child);
      assert a + b == a + b[..n] + [b[n]] && b == b[..n] + [b[n]];
    }
  }

  lemma FillSnoc(a: seq<Piece>, p: Piece, child: string)
    ensures Fill(a + [p], child) == Fill(a, child) + if p.Markup? then p.text else child
  {
    assert (a + [p])[..|a|] == a;
  }

  lemma {:induction false} FillMarkup(a: seq<Piece>, child: string)
    requires ChildSlot !in a
    ensures Fill(a, child) == Texts(a)
  {
    if |a| > 0 {
      FillMarkup(a[..|a| - 1], child);
    }
  }

  /** A layout with one child slot writes its head, what stands before the slot, the children, what stands behind. */
  lemma LayoutWraps<E>(run: LayoutRun<E>, before: seq<Piece>, behind: seq<Piece>, child: Outcome<E>)
    requires run.pieces == before + [ChildSlot] + behind && ChildSlot !in before && ChildSlot !in behind
    requires run.err.None? && child.err.None?
    ensures Adapt(run, child) == Outcome(run.head + (Texts(before) + child.out + Texts(behind)), None)
  {
    FillAppend(before + [ChildSlot], behind, child.out);
    FillAppend(before, [ChildSlot], child.out);
    FillMarkup(before, child.out);
    FillMarkup(behind, child.out);
    assert [ChildSlot][..0] == [] && Fill([], child.out) == "";
    assert Fill([ChildSlot], child.out) == child.out;
  }

  // ------------------------------------------------------------------ who fails

  /** The error reported: a layout's own, or, if it renders its children, theirs. */
  function FirstError<D, E>(env: Env<D, E>, ls: seq<string>, ds: seq<Option<D>>, slot: Outcome<E>): Option<E>
    requires |ls| == |ds|
  {
    if |ls| == 0 then slot.err
    else
      var run := env.layout(ls[0], ds[0]);
      if run.err.Some? then run.err
      else if ChildSlot in run.pieces then FirstError(env, ls[1..], ds[1..], slot)
      else None
  }

  lemma {:induction false} ComposeFails<D, E>(env: Env<D, E>, ls: seq<string>, ds: seq<Option<D>>, slot: Outcome<E>)
    requires |ls| == |ds|
    ensures Compose(env, ls, ds, slot).err == FirstError(env, ls, ds, slot)
    ensures |ls| > 0 && Compose(env, ls, ds, slot).err.Some? ==> Compose(env, ls, ds, slot).out == ""
  {
    if |ls| > 0 {
      ComposeFails(env, ls[1..], ds[1..], slot);
    }
  }

  /** A failing chain reports the first error from the outside in, and has written the opening marker alone. */
  lemma FailedChain<D, E>(env: Env<D, E>, ls: seq<string>, ds: seq<Option<D>>)
    requires ls != [] && |ls| == |ds|
    ensures PageInLayouts(env, ls, ds).err == FirstError(env, ls, ds, env.inner)
    ensures PageInLayouts(env, ls, ds).err.Some? ==> PageInLayouts(env, ls, ds).out == env.open
  {
    ComposeFails(env, ls, ds, Bracket(env, env.inner));
    SameFirstError(env, ls, ds, Bracket(env, env.inner), env.inner);
  }

  lemma {:induction false} SameFirstError<D, E>(env: Env<D, E>, ls: seq<string>, ds: seq<Option<D>>,
                                                a: Outcome<E>, b: Outcome<E>)
    requires |ls| == |ds| && a.err == b.err
    ensures FirstError(env, ls, ds, a) == FirstError(env, ls, ds, b)
  {
    if |ls| > 0 {
      SameFirstError(env, ls[1..], ds[1..], a, b);
    }
  }
}
