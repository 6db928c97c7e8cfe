/**
 The browser jar across requests with one operation each: the shapes it can take,
 and what one flush or one Destroy makes of it.
 */
module CookieJar {
  import opened Text
  import opened CookieCodec
  import opened CookieSession

  predicate IsChunk(name: string, key: string, lo: nat, hi: nat) {
    exists i :: lo <= i < hi && key == ChunkName(name, i)
  }

  ghost predicate OwnName(name: string, key: string) {
    key == name || key == MetaName(name) || exists i: nat :: key == ChunkName(name, i)
  }

  // ------------------------------------------------ what a run of cookies does

  lemma {:induction false} AfterExpire(jar: Jar, name: string, lo: nat, hi: nat, key: string)
    ensures Lookup(ApplyAll(jar, ExpireChunks(name, lo, hi)), key)
         == if IsChunk(name, key, lo, hi) then None else Lookup(jar, key)
  {
    if lo < hi {
      AfterExpire(jar, name, lo, hi - 1, key);
      ExpireLast(jar, name, lo, hi, key);
      assert IsChunk(name, key, lo, hi) <==> IsChunk(name, key, lo, hi - 1) || key == ChunkName(name, hi - 1);
    }
  }

  lemma ExpireLast(jar: Jar, name: string, lo: nat, hi: nat, key: string)
    requires lo < hi
    ensures Lookup(ApplyAll(jar, ExpireChunks(name, lo, hi)), key)
         == if key == ChunkName(name, hi - 1) then None
            else Lookup(ApplyAll(jar, ExpireChunks(name, lo, hi - 1)), key)
  {
    var before, last := ExpireChunks(name, lo, hi - 1), Expire(ChunkName(name, hi - 1));
    ApplyAppend(jar, before, [last]);
    ApplyOne(ApplyAll(jar, before), last);
  }

  lemma {:induction false} AfterStore(jar: Jar, name: string, parts: seq<string>, key: string)
    ensures !IsChunk(name, key, 0, |parts|) ==>
              Lookup(ApplyAll(jar, StoreChunks(name, parts)), key) == Lookup(jar, key)
    ensures forall i :: 0 <= i < |parts| && key == ChunkName(name, i) ==>
              Lookup(ApplyAll(jar, StoreChunks(name, parts)), key) == Some(parts[i])
  {
    if |parts| > 0 {
      var n := |parts| - 1;
      AfterStore(jar, name, parts[..n], key);
      StoreLast(jar, name, parts, key);
      if key == ChunkName(name, n) {
        OnlyChunk(name, n, |parts|);
      } else {
        assert IsChunk(name, key, 0, n) ==> IsChunk(name, key, 0, |parts|);
      }
    }
  }

  lemma OnlyChunk(name: string, n: nat, hi: nat)
    ensures forall i :: 0 <= i < hi && ChunkName(name, n) == ChunkName(name, i) ==> i == n
  {
    forall i | 0 <= i < hi && ChunkName(name, n) == ChunkName(name, i)
      ensures i == n
    {
      NamesDistinct(name, n, i);
    }
  }

  lemma StoreLast(jar: Jar, name: string, parts: seq<string>, key: string)
    requires |parts| > 0
    ensures var n := |parts| - 1;
      Lookup(ApplyAll(jar, StoreChunks(name, parts)), key)
      == if key == ChunkName(name, n) then Some(parts[n])
         else Lookup(ApplyAll(jar, StoreChunks(name, parts[..n])), key)
  {
  }

  // ------------------------------------------------------------------ shapes

  /** What a jar can hold for one session. */
  datatype Shape = Empty | Plain(value: string) | Chunked(parts: seq<string>)

  ghost predicate Holds(name: string, jar: Jar, shape: Shape) {
    match shape
    case Empty => forall key :: OwnName(name, key) ==> key !in jar
    case Plain(value) =>
      && value != ""
      && Lookup(jar, name) == Some(value)
      && forall key :: OwnName(name, key) && key != name ==> key !in jar
    case Chunked(parts) =>
      && 2 <= |parts| <= MAX_INT
      && name !in jar
      && Lookup(jar, MetaName(name)) == Some(EncodeChunkMeta(|parts|))
      && (forall i :: 0 <= i < |parts| ==> Lookup(jar, ChunkName(name, i)) == Some(parts[i]))
      && (forall i :: |parts| <= i ==> ChunkName(name, i) !in jar)
  }

  /** The shape one flush of `wire` leaves behind. */
  function ShapeOf(wire: string): Shape {
    if |wire| <= MAX_CHUNK_BYTES then Plain(wire) else Chunked(Chunks(wire))
  }

  function Count(shape: Shape): nat {
    if shape.Chunked? then |shape.parts| else 0
  }

  lemma CountRead(name: string, jar: Jar, shape: Shape)
    requires Holds(name, jar, shape)
    ensures PrevChunkCount(name, jar) == Count(shape)
    ensures (name in jar && jar[name] != "") <==> shape.Plain?
  {
    NamesDistinct(name, 0, 0);
    assert OwnName(name, MetaName(name)) && OwnName(name, name);
    if shape.Chunked? {
      ChunkMetaRoundTrip(|shape.parts|);
    }
  }

  lemma {:induction false} JoinHeld(name: string, jar: Jar, parts: seq<string>, n: nat)
    requires n <= |parts|
    requires forall i :: 0 <= i < n ==> Lookup(jar, ChunkName(name, i)) == Some(parts[i])
    ensures JoinParts(name, jar, n) == Some(Concat(parts[..n]))
  {
    if n > 0 {
      JoinHeld(name, jar, parts, n - 1);
      assert parts[..n][..n - 1] == parts[..n - 1];
    }
  }

  /** A jar in a given shape reads back as exactly that shape's text. */
  lemma ShapeReads(name: string, jar: Jar, shape: Shape)
    requires Holds(name, jar, shape)
    ensures ReadWire(name, jar) == match shape
                                   case Empty => None
                                   case Plain(value) => Some(value)
                                   case Chunked(parts) => Some(Concat(parts))
  {
    CountRead(name, jar, shape);
    assert OwnName(name, MetaName(name)) && OwnName(name, name);
    if shape.Chunked? {
      ChunkMetaRoundTrip(|shape.parts|);
      JoinHeld(name, jar, shape.parts, |shape.parts|);
      assert shape.parts[..|shape.parts|] == shape.parts;
    }
  }

  // ------------------------------------------- what one operation does to a jar

  datatype Op = Put(wire: string) | Drop

  /** The cookies one Set or Destroy adds, always computed from the request. */
  function Cookies(name: string, req: Jar, op: Op): seq<SetCookie> {
    match op
    case Put(wire) => FlushCookies(name, req, wire)
    case Drop => DestroyCookies(name, req)
  }

  predicate Small(op: Op) {
    op.Put? && |op.wire| <= MAX_CHUNK_BYTES
  }

  predicate Large(op: Op) {
    op.Put? && |op.wire| > MAX_CHUNK_BYTES
  }

  /** A real wire is never empty, and its length is a Go int. */
  predicate RealOp(op: Op) {
    op.Put? ==> 0 < |op.wire| <= MAX_INT
  }

  lemma Apply3(jar: Jar, a: seq<SetCookie>, b: seq<SetCookie>, c: seq<SetCookie>)
    ensures ApplyAll(jar, a + b + c) == ApplyAll(ApplyAll(ApplyAll(jar, a), b), c)
  {
    ApplyAppend(jar, a + b, c);
    ApplyAppend(jar, a, b);
  }

  lemma Optional(jar: Jar, c: SetCookie, present: bool, key: string)
    ensures Lookup(ApplyAll(jar, if present then [c] else []), key)
         == if present && key == c.name then Lookup(Apply(jar, c), key) else Lookup(jar, key)
  {
  }

  /** A single-cookie flush. */
  lemma AfterSingle(jar: Jar, name: string, value: string, prev: nat, key: string)
    ensures Lookup(ApplyAll(jar, SingleCookies(name, value, prev)), key)
         == if key == name then Some(value)
            else if IsChunk(name, key, 0, prev) || (key == MetaName(name) && prev > 0) then None
            else Lookup(jar, key)
  {
    var a, b, c := ExpireChunks(name, 0, prev), if prev > 0 then [Expire(MetaName(name))] else [], [Store(name, value)];
    Apply3(jar, a, b, c);
    AfterExpire(jar, name, 0, prev, key);
    Optional(ApplyAll(jar, a), Expire(MetaName(name)), prev > 0, key);
    ApplyOne(ApplyAll(ApplyAll(jar, a), b), Store(name, value));
  }

  /** A chunked flush. */
  lemma AfterChunked(jar: Jar, name: string, req: Jar, parts: seq<string>, prev: nat, key: string)
    ensures forall i :: 0 <= i < |parts| && key == ChunkName(name, i) ==>
              Lookup(ApplyAll(jar, ChunkedCookies(name, req, parts, prev)), key) == Some(parts[i])
    ensures !IsChunk(name, key, 0, |parts|) ==>
      Lookup(ApplyAll(jar, ChunkedCookies(name, req, parts, prev)), key)
         == if key == MetaName(name) then Some(EncodeChunkMeta(|parts|))
            else if IsChunk(name, key, |parts|, prev) then None
            else if key == name && name in req && req[name] != "" then None
            else Lookup(jar, key)
  {
    var plain := name in req && req[name] != "";
    var a, b := if plain then [Expire(name)] else [], ExpireChunks(name, |parts|, prev);
    var meta := Store(MetaName(name), EncodeChunkMeta(|parts|));
    Apply3(jar, a, b, [meta]);
    ApplyAppend(jar, a + b + [meta], StoreChunks(name, parts));
    Optional(jar, Expire(name), plain, key);
    AfterExpire(ApplyAll(jar, a), name, |parts|, prev, key);
    ApplyOne(ApplyAll(ApplyAll(jar, a), b), meta);
    AfterStore(ApplyAll(jar, a + b + [meta]), name, parts, key);
  }

  /** Destroy. */
  lemma AfterDestroy(jar: Jar, name: string, req: Jar, key: string)
    ensures var prev := PrevChunkCount(name, req);
      Lookup(ApplyAll(jar, DestroyCookies(name, req)), key)
         == if key == name || (key == MetaName(name) && prev > 0) || IsChunk(name, key, 0, prev) then None
            else Lookup(jar, key)
  {
    var prev := PrevChunkCount(name, req);
    ApplyOne(jar, Expire(name));
    if prev > 0 {
      var jar1 := ApplyAll(jar, [Expire(name)]);
      ApplyAppend(jar, [Expire(name)], [Expire(MetaName(name))] + ExpireChunks(name, 0, prev));
      ApplyAppend(jar1, [Expire(MetaName(name))], ExpireChunks(name, 0, prev));
      ApplyOne(jar1, Expire(MetaName(name)));
      AfterExpire(ApplyAll(jar1, [Expire(MetaName(name))]), name, 0, prev, key);
    } else {
      assert DestroyCookies(name, req) == [Expire(name)];
    }
  }

  // -------------------------------------------------- one operation per request

  function ShapeAfter(op: Op): Shape {
    if op.Drop? then Empty else ShapeOf(op.wire)
  }

  /** Cookies that are not the session's own are left as they were. */
  ghost predicate OthersKept(name: string, before: Jar, after: Jar) {
    forall key :: !OwnName(name, key) ==> Lookup(after, key) == Lookup(before, key)
  }

  lemma PutSmall(name: string, jar: Jar, shape: Shape, wire: string)
    requires Holds(name, jar, shape) && 0 < |wire| <= MAX_CHUNK_BYTES
    ensures Holds(name, ApplyAll(jar, FlushCookies(name, jar, wire)), Plain(wire))
    ensures OthersKept(name, jar, ApplyAll(jar, FlushCookies(name, jar, wire)))
  {
    var prev := PrevChunkCount(name, jar);
    var after := ApplyAll(jar, FlushCookies(name, jar, wire));
    CountRead(name, jar, shape);
    AfterSingle(jar, name, wire, prev, name);
    forall key | OwnName(name, key) && key != name
      ensures key !in after
    {
      AfterSingle(jar, name, wire, prev, key);
      if key in jar {
        LeftOver(name, jar, shape, key);
      }
    }
    forall key | !OwnName(name, key)
      ensures Lookup(after, key) == Lookup(jar, key)
    {
      AfterSingle(jar, name, wire, prev, key);
    }
  }

  /** Of the session's own cookies only the meta cookie and the counted chunks exist beside the plain one. */
  lemma LeftOver(name: string, jar: Jar, shape: Shape, key: string)
    requires Holds(name, jar, shape) && OwnName(name, key) && key != name && key in jar
    ensures Count(shape) > 0 && (key == MetaName(name) || IsChunk(name, key, 0, Count(shape)))
  {
  }

  lemma PutLarge(name: string, jar: Jar, shape: Shape, wire: string)
    requires Holds(name, jar, shape) && MAX_CHUNK_BYTES < |wire| <= MAX_INT
    ensures Holds(name, ApplyAll(jar, FlushCookies(name, jar, wire)), Chunked(Chunks(wire)))
    ensures OthersKept(name, jar, ApplyAll(jar, FlushCookies(name, jar, wire)))
  {
    var parts, prev := Chunks(wire), PrevChunkCount(name, jar);
    var after := ApplyAll(jar, FlushCookies(name, jar, wire));
    ChunksRoundTrip(wire);
    CountRead(name, jar, shape);
    NotAChunk(name, |parts|);
    AfterChunked(jar, name, jar, parts, prev, name);
    AfterChunked(jar, name, jar, parts, prev, MetaName(name));
    forall i | 0 <= i < |parts|
      ensures Lookup(after, ChunkName(name, i)) == Some(parts[i])
    {
      AfterChunked(jar, name, jar, parts, prev, ChunkName(name, i));
    }
    forall i | |parts| <= i
      ensures ChunkName(name, i) !in after
    {
      NotEarlierChunk(name, i, |parts|);
      AfterChunked(jar, name, jar, parts, prev, ChunkName(name, i));
      NamesDistinct(name, i, i);
      if i < prev {
        assert IsChunk(name, ChunkName(name, i), |parts|, prev);
      } else {
        NotEarlierChunk(name, i, prev);
        if ChunkName(name, i) in jar {
          LeftOver(name, jar, shape, ChunkName(name, i));
        }
      }
    }
    forall key | !OwnName(name, key)
      ensures Lookup(after, key) == Lookup(jar, key)
    {
      AfterChunked(jar, name, jar, parts, prev, key);
    }
  }

  lemma NotAChunk(name: string, n: nat)
    ensures !IsChunk(name, name, 0, n) && !IsChunk(name, MetaName(name), 0, n)
  {
    forall i | 0 <= i < n
      ensures ChunkName(name, i) != name && ChunkName(name, i) != MetaName(name)
    {
      NamesDistinct(name, i, i);
    }
  }

  lemma NotEarlierChunk(name: string, i: nat, n: nat)
    requires n <= i
    ensures !IsChunk(name, ChunkName(name, i), 0, n)
  {
    forall j | 0 <= j < n
      ensures ChunkName(name, j) != ChunkName(name, i)
    {
      NamesDistinct(name, i, j);
    }
  }

  lemma DropAll(name: string, jar: Jar, shape: Shape)
    requires Holds(name, jar, shape)
    ensures Holds(name, ApplyAll(jar, DestroyCookies(name, jar)), Empty)
    ensures OthersKept(name, jar, ApplyAll(jar, DestroyCookies(name, jar)))
  {
    var after := ApplyAll(jar, DestroyCookies(name, jar));
    CountRead(name, jar, shape);
    forall key
      ensures OwnName(name, key) ==> key !in after
      ensures !OwnName(name, key) ==> Lookup(after, key) == Lookup(jar, key)
    {
      AfterDestroy(jar, name, jar, key);
      if OwnName(name, key) && key != name && key in jar {
        LeftOver(name, jar, shape, key);
      }
    }
  }

  /** One flush or one Destroy turns any proper jar into exactly the expected shape. */
  lemma OneOpShape(name: string, jar: Jar, shape: Shape, op: Op)
    requires Holds(name, jar, shape) && RealOp(op)
    ensures var after := ApplyAll(jar, Cookies(name, jar, op));
      Holds(name, after, ShapeAfter(op)) && OthersKept(name, jar, after)
  {
    match op
    case Drop => DropAll(name, jar, shape);
    case Put(wire) =>
      if |wire| <= MAX_CHUNK_BYTES {
        PutSmall(name, jar, shape, wire);
      } else {
        PutLarge(name, jar, shape, wire);
      }
  }

  // ------------------------------------------------------------- many requests

  /** What one request does with its session: nothing, or one operation. */
  type Request = Option<Op>

  function JarAfter(name: string, jar: Jar, history: seq<Request>): Jar {
    if |history| == 0 then jar
    else
      var before := JarAfter(name, jar, history[..|history| - 1]);
      match history[|history| - 1]
      case None => before
      case Some(op) => ApplyAll(before, Cookies(name, before, op))
  }

  /** The wire the session should still have: the last flushed one, unless destroyed since. */
  function Current(history: seq<Request>): Option<string> {
    if |history| == 0 then None
    else match history[|history| - 1]
      case None => Current(history[..|history| - 1])
      case Some(Put(wire)) => Some(wire)
      case Some(Drop) => None
  }

  function CurrentShape(history: seq<Request>): Shape {
    match Current(history)
    case None => Empty
    case Some(wire) => ShapeOf(wire)
  }

  lemma {:induction false} JarShape(name: string, jar: Jar, history: seq<Request>)
    requires Holds(name, jar, Empty)
    requires forall i :: 0 <= i < |history| && history[i].Some? ==> RealOp(history[i].value)
    ensures Holds(name, JarAfter(name, jar, history), CurrentShape(history))
    ensures OthersKept(name, jar, JarAfter(name, jar, history))
    ensures Current(history).Some? ==> RealOp(Put(Current(history).value))
  {
    if |history| > 0 {
      var init, last := history[..|history| - 1], history[|history| - 1];
      JarShape(name, jar, init);
      if last.Some? {
        OneOpShape(name, JarAfter(name, jar, init), CurrentShape(init), last.value);
      }
    }
  }

  /** After any number of requests the jar is proper and the next request reads the last flushed wire. */
  lemma SessionReadsBack(name: string, jar: Jar, history: seq<Request>)
    requires Holds(name, jar, Empty)
    requires forall i :: 0 <= i < |history| && history[i].Some? ==> RealOp(history[i].value)
    ensures Holds(name, JarAfter(name, jar, history), CurrentShape(history))
    ensures OthersKept(name, jar, JarAfter(name, jar, history))
    ensures ReadWire(name, JarAfter(name, jar, history)) == Current(history)
  {
    JarShape(name, jar, history);
    ShapeReads(name, JarAfter(name, jar, history), CurrentShape(history));
    if Current(history).Some? {
      ChunksRoundTrip(Current(history).value);
    }
  }
}
