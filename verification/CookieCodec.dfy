/**
 The wire form of a cookie session: chunking, cookie names and the chunk-count
 cookie.
 */
module CookieCodec {
  import opened Text

  const MAX_CHUNK_BYTES: nat := 4000

  /** The wire cut every MAX_CHUNK_BYTES bytes. */
  function Pieces(wire: string): seq<string> {
    if |wire| == 0 then []
    else if |wire| <= MAX_CHUNK_BYTES then [wire]
    else [wire[..MAX_CHUNK_BYTES]] + Pieces(wire[MAX_CHUNK_BYTES..])
  }

  /** splitChunks as a value. */
  function Chunks(wire: string): seq<string> {
    if |wire| <= MAX_CHUNK_BYTES then [wire] else Pieces(wire)
  }

  method SplitChunks(wire: string) returns (chunks: seq<string>)
    ensures chunks == Chunks(wire)
  {
    if |wire| <= MAX_CHUNK_BYTES {
      return [wire];
    }
    chunks := [];
    var rest := wire;
    while |rest| > 0
      invariant chunks + Pieces(rest) == Pieces(wire)
      decreases |rest|
    {
      var n := MAX_CHUNK_BYTES;
      if n > |rest| {
        n := |rest|;
      }
      assert n == |rest| ==> rest[..n] == rest;
      assert Pieces(rest) == [rest[..n]] + Pieces(rest[n..]);
      chunks := chunks + [rest[..n]];
      rest := rest[n..];
    }
  }

  lemma {:induction false} PiecesJoin(wire: string)
    ensures Concat(Pieces(wire)) == wire
    ensures |Pieces(wire)| <= |wire|
    ensures forall i :: 0 <= i < |Pieces(wire)| ==> 0 < |Pieces(wire)[i]| <= MAX_CHUNK_BYTES
  {
    if |wire| > MAX_CHUNK_BYTES {
      PiecesJoin(wire[MAX_CHUNK_BYTES..]);
      ConcatCons(wire[..MAX_CHUNK_BYTES], Pieces(wire[MAX_CHUNK_BYTES..]));
    } else if |wire| > 0 {
      assert Concat([wire]) == Concat([]) + wire;
    }
  }

  /** Joining undoes splitting; every chunk fits, and a wire is cut only when it must be. */
  lemma ChunksRoundTrip(wire: string)
    ensures Concat(Chunks(wire)) == wire
    ensures forall i :: 0 <= i < |Chunks(wire)| ==> |Chunks(wire)[i]| <= MAX_CHUNK_BYTES
    ensures |Chunks(wire)| == 1 <==> |wire| <= MAX_CHUNK_BYTES
    ensures 1 <= |Chunks(wire)| && (|wire| > MAX_CHUNK_BYTES ==> |Chunks(wire)| <= |wire|)
  {
    PiecesJoin(wire);
    assert Concat([wire]) == Concat([]) + wire;
    if |wire| > MAX_CHUNK_BYTES {
      assert |Pieces(wire[MAX_CHUNK_BYTES..])| > 0;
    }
  }

  lemma {:induction false} PiecesFull(wire: string)
    ensures forall i :: 0 <= i < |Pieces(wire)| - 1 ==> |Pieces(wire)[i]| == MAX_CHUNK_BYTES
    ensures |Pieces(wire)| == (|wire| + MAX_CHUNK_BYTES - 1) / MAX_CHUNK_BYTES
  {
    if |wire| > MAX_CHUNK_BYTES {
      PiecesFull(wire[MAX_CHUNK_BYTES..]);
    }
  }

  /** No chunk is cut short but the last, so there are as few as the limit allows. */
  lemma ChunksAreFull(wire: string)
    ensures forall i :: 0 <= i < |Chunks(wire)| - 1 ==> |Chunks(wire)[i]| == MAX_CHUNK_BYTES
    ensures wire != "" ==> |Chunks(wire)| == (|wire| + MAX_CHUNK_BYTES - 1) / MAX_CHUNK_BYTES
  {
    PiecesFull(wire);
  }

  // ------------------------------------------------------------ cookie names

  function ChunkName(base: string, i: nat): string {
    base + "." + Itoa(i)
  }

  function MetaName(base: string): string {
    base + ".meta"
  }

  lemma NamesDistinct(base: string, i: nat, j: nat)
    ensures ChunkName(base, i) != base && MetaName(base) != base
    ensures ChunkName(base, i) != MetaName(base)
    ensures ChunkName(base, i) == ChunkName(base, j) ==> i == j
  {
    var b := |base| + 1;
    assert ChunkName(base, i)[b..] == Itoa(i) && ChunkName(base, j)[b..] == Itoa(j);
    assert MetaName(base)[b] == 'm' && ChunkName(base, i)[b] == Itoa(i)[0];
    if ChunkName(base, i) == ChunkName(base, j) {
      ItoaInjective(i, j);
    }
  }

  function EncodeChunkMeta(count: nat): string {
    Itoa(count)
  }

  function DecodeChunkMeta(meta: string): Option<nat> {
    match Atoi(TrimSpace(meta))
    case None => None
    case Some(n) => if n < 1 then None else Some(n)
  }

  lemma ChunkMetaRoundTrip(count: nat)
    requires 1 <= count <= MAX_INT
    ensures DecodeChunkMeta(EncodeChunkMeta(count)) == Some(count)
  {
    AtoiItoa(count);
    TrimSpaceTight(Itoa(count));
  }
}
