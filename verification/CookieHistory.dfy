/**
 Any number of session operations in any number of requests. Every Set and Destroy
 looks at the cookies of the request, not at those its own response has set so far,
 so jars outside the proper shapes arise; two facts about a jar are enough to follow
 them all, and to say exactly when the last operation is what the next request reads.
 */
module CookieHistory {
  import opened Text
  import opened CookieCodec
  import opened CookieSession
  import opened CookieJar

  /** All headers of a response whose handler ran `ops`: each looks at the request only. */
  function Response(name: string, req: Jar, ops: seq<Op>): seq<SetCookie> {
    if |ops| == 0 then []
    else Response(name, req, ops[..|ops| - 1]) + Cookies(name, req, ops[|ops| - 1])
  }

  function JarAfterOps(name: string, req: Jar, ops: seq<Op>): Jar {
    ApplyAll(req, Response(name, req, ops))
  }

  /** Requests one after the other; the ones that leave the session alone have no operations. */
  function JarAfterAll(name: string, jar: Jar, history: seq<seq<Op>>): Jar {
    if |history| == 0 then jar
    else JarAfterOps(name, JarAfterAll(name, jar, history[..|history| - 1]), history[|history| - 1])
  }

  predicate RealOps(ops: seq<Op>) {
    forall i :: 0 <= i < |ops| ==> RealOp(ops[i])
  }

  predicate RealHistory(history: seq<seq<Op>>) {
    forall i :: 0 <= i < |history| ==> RealOps(history[i])
  }

  // ------------------------------------------------------- the state of a jar

  /** The plain cookie, and the chunks the meta cookie counts. Chunks beyond those are never read. */
  datatype State = State(plain: Option<string>, chunks: Option<seq<string>>)

  ghost predicate HasChunks(name: string, jar: Jar, parts: seq<string>) {
    && 1 <= |parts| <= MAX_INT
    && Lookup(jar, MetaName(name)) == Some(EncodeChunkMeta(|parts|))
    && forall i :: 0 <= i < |parts| ==> Lookup(jar, ChunkName(name, i)) == Some(parts[i])
  }

  ghost predicate Keeps(name: string, jar: Jar, st: State) {
    && Lookup(jar, name) == st.plain
    && st.plain != Some("")
    && match st.chunks
       case None => Lookup(jar, MetaName(name)) == None
       case Some(parts) => HasChunks(name, jar, parts)
  }

  /** What a request with such a jar reads. */
  function Read(st: State): Option<string> {
    if st.plain.Some? then st.plain else if st.chunks.Some? then Some(Concat(st.chunks.value)) else None
  }

  function Counted(st: State): nat {
    if st.chunks.Some? then |st.chunks.value| else 0
  }

  lemma StateCounts(name: string, jar: Jar, st: State)
    requires Keeps(name, jar, st)
    ensures PrevChunkCount(name, jar) == Counted(st) && (Counted(st) > 0 <==> st.chunks.Some?)
    ensures (name in jar && jar[name] != "") <==> st.plain.Some?
  {
    if st.chunks.Some? {
      ChunkMetaRoundTrip(|st.chunks.value|);
    }
  }

  lemma StateReads(name: string, jar: Jar, st: State)
    requires Keeps(name, jar, st)
    ensures ReadWire(name, jar) == Read(st)
  {
    if st.plain.None? && st.chunks.Some? {
      var parts := st.chunks.value;
      ChunkMetaRoundTrip(|parts|);
      JoinHeld(name, jar, parts, |parts|);
      assert parts[..|parts|] == parts;
    }
  }

  function StateOf(shape: Shape): State {
    match shape
    case Empty => State(None, None)
    case Plain(value) => State(Some(value), None)
    case Chunked(parts) => State(None, Some(parts))
  }

  /** The three proper shapes are such states. */
  lemma ShapeKeeps(name: string, jar: Jar, shape: Shape)
    requires Holds(name, jar, shape)
    ensures Keeps(name, jar, StateOf(shape))
  {
    NamesDistinct(name, 0, 0);
    assert OwnName(name, MetaName(name)) && OwnName(name, name);
  }

  // ------------------------------------------------- what one operation does

  /** The state after an operation of a request that came with `req`. */
  function After(req: State, st: State, op: Op): State {
    if Large(op) then State(if req.plain.Some? then None else st.plain, Some(Chunks(op.wire)))
    else State(if op.Drop? then None else Some(op.wire), if req.chunks.Some? then None else st.chunks)
  }

  lemma LargeCounts(name: string, req: Jar, jar: Jar, op: Op)
    requires Large(op) && RealOp(op)
    ensures HasChunks(name, ApplyAll(jar, Cookies(name, req, op)), Chunks(op.wire))
  {
    var parts, prev := Chunks(op.wire), PrevChunkCount(name, req);
    ChunksRoundTrip(op.wire);
    NotAChunk(name, |parts|);
    AfterChunked(jar, name, req, parts, prev, MetaName(name));
    forall i | 0 <= i < |parts|
      ensures Lookup(ApplyAll(jar, Cookies(name, req, op)), ChunkName(name, i)) == Some(parts[i])
    {
      AfterChunked(jar, name, req, parts, prev, ChunkName(name, i));
    }
  }

  lemma LargePlain(name: string, req: Jar, jar: Jar, op: Op)
    requires Large(op) && RealOp(op)
    ensures Lookup(ApplyAll(jar, Cookies(name, req, op)), name)
         == if name in req && req[name] != "" then None else Lookup(jar, name)
  {
    var parts, prev := Chunks(op.wire), PrevChunkCount(name, req);
    ChunksRoundTrip(op.wire);
    NotAChunk(name, |parts|);
    NamesDistinct(name, 0, 0);
    AfterChunked(jar, name, req, parts, prev, name);
    if IsChunk(name, name, |parts|, prev) {
      NotAChunk(name, prev);
    }
  }

  lemma SmallPlain(name: string, req: Jar, jar: Jar, op: Op)
    requires !Large(op)
    ensures Lookup(ApplyAll(jar, Cookies(name, req, op)), name) == if op.Drop? then None else Some(op.wire)
  {
    var prev := PrevChunkCount(name, req);
    if op.Drop? {
      AfterDestroy(jar, name, req, name);
    } else {
      AfterSingle(jar, name, op.wire, prev, name);
    }
  }

  /** A small Set or a Destroy touches the other cookies only if the request has a meta cookie. */
  lemma SmallOthers(name: string, req: Jar, jar: Jar, op: Op, key: string)
    requires !Large(op) && key != name
    ensures var prev := PrevChunkCount(name, req);
      Lookup(ApplyAll(jar, Cookies(name, req, op)), key)
         == if IsChunk(name, key, 0, prev) || (key == MetaName(name) && prev > 0) then None else Lookup(jar, key)
  {
    var prev := PrevChunkCount(name, req);
    if op.Drop? {
      AfterDestroy(jar, name, req, key);
    } else {
      AfterSingle(jar, name, op.wire, prev, key);
    }
  }

  lemma SmallChunks(name: string, req: Jar, jar: Jar, op: Op, parts: seq<string>)
    requires !Large(op) && PrevChunkCount(name, req) == 0 && HasChunks(name, jar, parts)
    ensures HasChunks(name, ApplyAll(jar, Cookies(name, req, op)), parts)
  {
    NamesDistinct(name, 0, 0);
    SmallOthers(name, req, jar, op, MetaName(name));
    forall i | 0 <= i < |parts|
      ensures Lookup(ApplyAll(jar, Cookies(name, req, op)), ChunkName(name, i)) == Some(parts[i])
    {
      NamesDistinct(name, i, i);
      SmallOthers(name, req, jar, op, ChunkName(name, i));
    }
  }

  lemma SmallKeeps(name: string, req: Jar, reqState: State, jar: Jar, st: State, op: Op)
    requires Keeps(name, req, reqState) && Keeps(name, jar, st) && RealOp(op) && !Large(op)
    ensures Keeps(name, ApplyAll(jar, Cookies(name, req, op)), After(reqState, st, op))
  {
    StateCounts(name, req, reqState);
    SmallPlain(name, req, jar, op);
    NamesDistinct(name, 0, 0);
    SmallOthers(name, req, jar, op, MetaName(name));
    if reqState.chunks.None? && st.chunks.Some? {
      SmallChunks(name, req, jar, op, st.chunks.value);
    }
  }

  /** One operation takes the state of any jar where `After` says. */
  lemma OpKeeps(name: string, req: Jar, reqState: State, jar: Jar, st: State, op: Op)
    requires Keeps(name, req, reqState) && Keeps(name, jar, st) && RealOp(op)
    ensures Keeps(name, ApplyAll(jar, Cookies(name, req, op)), After(reqState, st, op))
  {
    if Large(op) {
      StateCounts(name, req, reqState);
      LargePlain(name, req, jar, op);
      LargeCounts(name, req, jar, op);
    } else {
      SmallKeeps(name, req, reqState, jar, st, op);
    }
  }

  // --------------------------------------------------- many of them, many requests

  /** The state after the operations of one request. */
  function Run(req: State, ops: seq<Op>): State {
    if |ops| == 0 then req else After(req, Run(req, ops[..|ops| - 1]), ops[|ops| - 1])
  }

  function RunAll(st: State, history: seq<seq<Op>>): State {
    if |history| == 0 then st else Run(RunAll(st, history[..|history| - 1]), history[|history| - 1])
  }

  lemma {:induction false} RequestKeeps(name: string, req: Jar, st: State, ops: seq<Op>)
    requires Keeps(name, req, st) && RealOps(ops)
    ensures Keeps(name, JarAfterOps(name, req, ops), Run(st, ops))
  {
    if |ops| > 0 {
      var before, last := ops[..|ops| - 1], ops[|ops| - 1];
      RequestKeeps(name, req, st, before);
      ApplyAppend(req, Response(name, req, before), Cookies(name, req, last));
      OpKeeps(name, req, st, JarAfterOps(name, req, before), Run(st, before), last);
    }
  }

  /** Every jar a history of requests leads to is in the state the history leads to. */
  lemma {:induction false} HistoryKeeps(name: string, jar: Jar, st: State, history: seq<seq<Op>>)
    requires Keeps(name, jar, st) && RealHistory(history)
    ensures Keeps(name, JarAfterAll(name, jar, history), RunAll(st, history))
  {
    if |history| > 0 {
      var before := history[..|history| - 1];
      HistoryKeeps(name, jar, st, before);
      RequestKeeps(name, JarAfterAll(name, jar, before), RunAll(st, before), history[|history| - 1]);
    }
  }

  // ---------------------------------------------------------- reading back

  /** What the session promises after `op`: the wire just set, or nothing. */
  function Promised(op: Op): Option<string> {
    if op.Drop? then None else Some(op.wire)
  }

  /** A small Set not followed by a Destroy. */
  predicate PlainPending(ops: seq<Op>) {
    |ops| > 0 && (Small(ops[|ops| - 1]) || (Large(ops[|ops| - 1]) && PlainPending(ops[..|ops| - 1])))
  }

  predicate AnyLarge(ops: seq<Op>) {
    |ops| > 0 && (Large(ops[|ops| - 1]) || AnyLarge(ops[..|ops| - 1]))
  }

  /** When the last operation is undone by an earlier one of the same request. */
  predicate Stale(st: State, ops: seq<Op>) {
    |ops| > 0 &&
    var before, last := ops[..|ops| - 1], ops[|ops| - 1];
    || (Large(last) && st.plain.None? && PlainPending(before))
    || (last.Drop? && st.chunks.None? && AnyLarge(before))
  }

  lemma {:induction false} PlainTrack(st: State, ops: seq<Op>)
    requires st.plain.None?
    ensures Run(st, ops).plain.Some? <==> PlainPending(ops)
    ensures PlainPending(ops) ==> |Run(st, ops).plain.value| <= MAX_CHUNK_BYTES
  {
    if |ops| > 0 {
      PlainTrack(st, ops[..|ops| - 1]);
    }
  }

  lemma {:induction false} ChunksTrack(st: State, ops: seq<Op>)
    requires st.chunks.None?
    ensures Run(st, ops).chunks.Some? <==> AnyLarge(ops)
  {
    if |ops| > 0 {
      ChunksTrack(st, ops[..|ops| - 1]);
    }
  }

  lemma RunReadsExactly(st: State, ops: seq<Op>)
    requires |ops| > 0
    ensures Read(Run(st, ops)) == Promised(ops[|ops| - 1]) <==> !Stale(st, ops)
  {
    var before, last := ops[..|ops| - 1], ops[|ops| - 1];
    if Large(last) {
      ChunksRoundTrip(last.wire);
      if st.plain.None? {
        PlainTrack(st, before);
      }
    } else if last.Drop? && st.chunks.None? {
      ChunksTrack(st, before);
    }
  }

  lemma JarAfterMore(name: string, jar: Jar, history: seq<seq<Op>>, ops: seq<Op>)
    ensures JarAfterAll(name, jar, history + [ops]) == JarAfterOps(name, JarAfterAll(name, jar, history), ops)
  {
    assert (history + [ops])[..|history|] == history;
  }

  /**
   After any history of requests with any operations, and then a request with some: the next
   request reads what the last operation promised if and only if no earlier operation of the same
   request left a cookie that the last one does not know about.
   */
  lemma ReadsBackExactly(name: string, jar: Jar, st: State, history: seq<seq<Op>>, ops: seq<Op>)
    requires Keeps(name, jar, st) && RealHistory(history) && RealOps(ops) && |ops| > 0
    ensures ReadWire(name, JarAfterAll(name, jar, history + [ops])) == Promised(ops[|ops| - 1])
       <==> !Stale(RunAll(st, history), ops)
  {
    var req, reqState := JarAfterAll(name, jar, history), RunAll(st, history);
    HistoryKeeps(name, jar, st, history);
    RequestKeeps(name, req, reqState, ops);
    JarAfterMore(name, jar, history, ops);
    StateReads(name, JarAfterOps(name, req, ops), Run(reqState, ops));
    RunReadsExactly(reqState, ops);
  }

  /** Whatever went wrong before, a request with one operation sets things right. */
  lemma OneOpReadsBack(name: string, jar: Jar, st: State, history: seq<seq<Op>>, op: Op)
    requires Keeps(name, jar, st) && RealHistory(history) && RealOp(op)
    ensures ReadWire(name, JarAfterAll(name, jar, history + [[op]])) == Promised(op)
  {
    ReadsBackExactly(name, jar, st, history, [op]);
    assert [op][..0] == [];
  }

  /** The smallest failure: a short Set, then a long one, on a request with no session. */
  lemma StaleExample(name: string, long: string)
    requires MAX_CHUNK_BYTES < |long| <= MAX_INT
    ensures ReadWire(name, JarAfterOps(name, map[], [Put("x"), Put(long)])) != Some(long)
  {
    var ops := [Put("x"), Put(long)];
    assert ops[..1] == [Put("x")];
    assert Small(Put("x")) && Large(ops[1]);
    ReadsBackExactly(name, map[], State(None, None), [], ops);
    JarAfterMore(name, map[], [], ops);
  }

  /** A jar in none of the proper shapes: a long Set, then a short one, leave both kinds of cookie. */
  lemma BothExample(name: string, long: string)
    requires MAX_CHUNK_BYTES < |long| <= MAX_INT
    ensures Keeps(name, JarAfterOps(name, map[], [Put(long), Put("x")]), State(Some("x"), Some(Chunks(long))))
  {
    var ops, none := [Put(long), Put("x")], State(None, None);
    assert ops[..1] == [Put(long)] && [Put(long)][..0] == [];
    assert Run(none, []) == none && Run(none, [Put(long)]) == State(None, Some(Chunks(long)));
    RequestKeeps(name, map[], none, ops);
  }
}
