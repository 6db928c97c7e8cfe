/**
 A cookie session over many requests: what flush and Destroy put on the
 response, and how the browser's jar evolves (section 5.3 of RFC 6265: a cookie
 with the same name, domain and path replaces the stored one, and an expired one
 removes it). All cookies of one session share domain and path, so the jar is a
 map from names to values and the next request carries the whole jar.
 */
module CookieSession {
  import opened Text
  import opened CookieCodec

  type Jar = map<string, string>

  datatype SetCookie = Store(name: string, value: string) | Expire(name: string)

  function Lookup(jar: Jar, name: string): Option<string> {
    if name in jar then Some(jar[name]) else None
  }

  function Apply(jar: Jar, c: SetCookie): Jar {
    match c
    case Store(name, value) => jar[name := value]
    case Expire(name) => jar - {name}
  }

  function ApplyAll(jar: Jar, cs: seq<SetCookie>): Jar {
    if |cs| == 0 then jar else Apply(ApplyAll(jar, cs[..|cs| - 1]), cs[|cs| - 1])
  }

  lemma {:induction false} ApplyAppend(jar: Jar, a: seq<SetCookie>, b: seq<SetCookie>)
    ensures ApplyAll(jar, a + b) == ApplyAll(ApplyAll(jar, a), b)
  {
    if |b| == 0 {
      assert a + b == a;
    } else {
      assert (a + b)[..|a + b| - 1] == a + b[..|b| - 1];
      ApplyAppend(jar, a, b[..|b| - 1]);
    }
  }

  lemma ApplyOne(jar: Jar, c: SetCookie)
    ensures ApplyAll(jar, [c]) == Apply(jar, c)
  {
  }

  // ----------------------------------------------------- reading the request

  function JoinParts(name: string, req: Jar, n: nat): Option<string> {
    if n == 0 then Some("")
    else match (JoinParts(name, req, n - 1), Lookup(req, ChunkName(name, n - 1)))
      case (Some(s), Some(v)) => Some(s + v)
      case _ => None
  }

  /** readWire: the plain cookie wins; otherwise the counted chunks, all of them. */
  function ReadWire(name: string, req: Jar): Option<string> {
    if name in req && req[name] != "" then Some(req[name])
    else match Lookup(req, MetaName(name))
      case None => None
      case Some(meta) =>
        match DecodeChunkMeta(meta)
        case None => None
        case Some(n) => JoinParts(name, req, n)
  }

  function PrevChunkCount(name: string, req: Jar): nat {
    match Lookup(req, MetaName(name))
    case None => 0
    case Some(meta) =>
      match DecodeChunkMeta(meta)
      case None => 0
      case Some(n) => n
  }

  // ---------------------------------------------------- writing the response

  /** Expire chunks lo, lo+1, ..., hi-1. */
  function ExpireChunks(name: string, lo: nat, hi: nat): seq<SetCookie> {
    if hi <= lo then [] else ExpireChunks(name, lo, hi - 1) + [Expire(ChunkName(name, hi - 1))]
  }

  function StoreChunks(name: string, parts: seq<string>): seq<SetCookie> {
    if |parts| == 0 then []
    else StoreChunks(name, parts[..|parts| - 1]) + [Store(ChunkName(name, |parts| - 1), parts[|parts| - 1])]
  }

  function SingleCookies(name: string, value: string, prev: nat): seq<SetCookie> {
    ExpireChunks(name, 0, prev)
    + (if prev > 0 then [Expire(MetaName(name))] else [])
    + [Store(name, value)]
  }

  function ChunkedCookies(name: string, req: Jar, chunks: seq<string>, prev: nat): seq<SetCookie> {
    (if name in req && req[name] != "" then [Expire(name)] else [])
    + ExpireChunks(name, |chunks|, prev)
    + [Store(MetaName(name), EncodeChunkMeta(|chunks|))]
    + StoreChunks(name, chunks)
  }

  /** flush, as the list of Set-Cookie headers it adds. */
  function FlushCookies(name: string, req: Jar, wire: string): seq<SetCookie> {
    var chunks, prev := Chunks(wire), PrevChunkCount(name, req);
    if |chunks| == 1 then SingleCookies(name, chunks[0], prev)
    else ChunkedCookies(name, req, chunks, prev)
  }

  /** Destroy, as the list of Set-Cookie headers it adds. */
  function DestroyCookies(name: string, req: Jar): seq<SetCookie> {
    var prev := PrevChunkCount(name, req);
    [Expire(name)] + (if prev > 0 then [Expire(MetaName(name))] + ExpireChunks(name, 0, prev) else [])
  }

  /** What a wire decodes to; no expiry is the zero time. */
  datatype Payload<T> = Payload(data: T, expires: Option<int>)

  /** What NewSession makes of a request: the payload, nothing, an error, or an expired session. */
  datatype Loaded<T> = Current(payload: Payload<T>) | NoSession | DecodeError | ExpiredSession

  function Load<T>(name: string, req: Jar, decode: string -> Option<Payload<T>>, now: int): Loaded<T> {
    match ReadWire(name, req)
    case None => NoSession
    case Some(wire) =>
      match decode(wire)
      case None => DecodeError
      case Some(p) => if p.expires.Some? && now > p.expires.value then ExpiredSession else Current(p)
  }

  class Session<T> {
    const name: string
    const req: Jar
    const encode: Payload<T> -> Option<string>
    const maxAge: int
    var p: Payload<T>
    var dirty: bool
    var destroyed: bool
    var out: seq<SetCookie>

    constructor (name: string, req: Jar, encode: Payload<T> -> Option<string>, maxAge: int, zero: T)
      ensures this.name == name && this.req == req && this.encode == encode && this.maxAge == maxAge
      ensures p == Payload(zero, None) && out == [] && !dirty && !destroyed
    {
      this.name, this.req, this.encode, this.maxAge := name, req, encode, maxAge;
      p, dirty, destroyed, out := Payload(zero, None), false, false, [];
    }

    /**
     NewSession: the request's payload, or the zero value with an error exactly when a wire was
     there and did not decode; an expired payload leaves a destroyed session to be flushed.
     */
    static method Open(name: string, req: Jar, encode: Payload<T> -> Option<string>,
                       decode: string -> Option<Payload<T>>, maxAge: int, zero: T, now: int)
      returns (s: Session<T>, err: bool)
      ensures fresh(s) && s.name == name && s.req == req && s.encode == encode && s.maxAge == maxAge && s.out == []
      ensures s.p == match Load(name, req, decode, now) case Current(p) => p case _ => Payload(zero, None)
      ensures err == Load(name, req, decode, now).DecodeError?
      ensures s.dirty == s.destroyed == Load(name, req, decode, now).ExpiredSession?
    {
      err := false;
      s := new Session(name, req, encode, maxAge, zero);
      var wire := ReadRequest(name, req);
      if wire.None? {
        return;
      }
      var p := decode(wire.value);
      if p.None? {
        return s, true;
      }
      if p.value.expires.Some? && now > p.value.expires.value {
        s.dirty := true;
        s.destroyed := true;
        return;
      }
      s.p := p.value;
    }

    static method ReadRequest(name: string, req: Jar) returns (wire: Option<string>)
      ensures wire == ReadWire(name, req)
    {
      if name in req && req[name] != "" {
        return Some(req[name]);
      }
      if MetaName(name) !in req {
        return None;
      }
      var n := DecodeChunkMeta(req[MetaName(name)]);
      if n.None? {
        return None;
      }
      var joined := "";
      for i := 0 to n.value
        invariant JoinParts(name, req, i) == Some(joined)
      {
        if ChunkName(name, i) !in req {
          MissingPart(name, req, i, n.value);
          return None;
        }
        joined := joined + req[ChunkName(name, i)];
      }
      return Some(joined);
    }

    /** The expiry after a write at this time. */
    function Stamp(now: int): Option<int>
      reads this
    {
      if maxAge > 0 then Some(now + maxAge) else p.expires
    }

    /** Set replaces the data and flushes at once. */
    method Set(v: T, now: int) returns (ok: bool)
      modifies this
      ensures p == Payload(v, old(Stamp(now))) && dirty && !destroyed
      ensures ok == encode(p).Some?
      ensures out == old(out) + if ok then FlushCookies(name, req, encode(p).value) else []
    {
      p := Payload(v, Stamp(now));
      dirty := true;
      destroyed := false;
      ok := Flush();
    }

    /** Update is Set on a function of the current data. */
    method Update(fn: T -> T, now: int) returns (ok: bool)
      modifies this
      ensures p == Payload(fn(old(p.data)), old(Stamp(now))) && dirty && !destroyed
      ensures ok == encode(p).Some?
      ensures out == old(out) + if ok then FlushCookies(name, req, encode(p).value) else []
    {
      p := Payload(fn(p.data), Stamp(now));
      dirty := true;
      destroyed := false;
      ok := Flush();
    }

    /** Refresh moves the expiry and flushes; `d` is the duration given, if any. */
    method Refresh(d: Option<int>, now: int) returns (ok: bool)
      modifies this
      ensures var dur := if d.Some? && d.value > 0 then d.value else maxAge;
        p == Payload(old(p.data), if dur > 0 then Some(now + dur) else old(p.expires))
      ensures dirty && destroyed == old(destroyed) && ok == encode(p).Some?
      ensures out == old(out) + if ok then FlushCookies(name, req, encode(p).value) else []
    {
      var dur := maxAge;
      if d.Some? && d.value > 0 {
        dur := d.value;
      }
      if dur > 0 {
        p := p.(expires := Some(now + dur));
      }
      dirty := true;
      ok := Flush();
    }

    /** Destroy clears the data and expires everything the request showed. */
    method Destroy(zero: T)
      modifies this
      ensures p == Payload(zero, None) && dirty && destroyed
      ensures out == old(out) + DestroyCookies(name, req)
    {
      p := Payload(zero, None);
      dirty := true;
      destroyed := true;
      out := out + [Expire(name)];
      var prev := PrevChunkCount(name, req);
      if prev > 0 {
        out := out + [Expire(MetaName(name))];
        ExpireRange(0, prev);
      }
    }

    method Flush() returns (ok: bool)
      modifies this`out
      ensures ok == encode(p).Some?
      ensures out == old(out) + if ok then FlushCookies(name, req, encode(p).value) else []
    {
      var wire := encode(p);
      if wire.None? {
        return false;
      }
      var chunks := SplitChunks(wire.value);
      var prev := PrevChunkCount(name, req);
      if |chunks| == 1 {
        FlushSingle(chunks[0], prev);
      } else {
        FlushChunked(chunks, prev);
      }
      return true;
    }

    method FlushSingle(value: string, prev: nat)
      modifies this`out
      ensures out == old(out) + SingleCookies(name, value, prev)
    {
      ExpireRange(0, prev);
      if prev > 0 {
        out := out + [Expire(MetaName(name))];
      }
      out := out + [Store(name, value)];
    }

    method FlushChunked(chunks: seq<string>, prev: nat)
      modifies this`out
      ensures out == old(out) + ChunkedCookies(name, req, chunks, prev)
    {
      if name in req && req[name] != "" {
        out := out + [Expire(name)];
      }
      ExpireRange(|chunks|, prev);
      out := out + [Store(MetaName(name), EncodeChunkMeta(|chunks|))];
      StoreAll(chunks);
    }

    method ExpireRange(lo: nat, hi: nat)
      modifies this`out
      ensures out == old(out) + ExpireChunks(name, lo, hi)
    {
      var i := lo;
      while i < hi
        invariant lo <= i && (if lo <= hi then i <= hi else i == lo)
        invariant out == old(out) + ExpireChunks(name, lo, i)
      {
        out := out + [Expire(ChunkName(name, i))];
        i := i + 1;
      }
      assert ExpireChunks(name, lo, i) == ExpireChunks(name, lo, hi);
    }

    method StoreAll(chunks: seq<string>)
      modifies this`out
      ensures out == old(out) + StoreChunks(name, chunks)
    {
      for k := 0 to |chunks|
        invariant out == old(out) + StoreChunks(name, chunks[..k])
      {
        assert chunks[..k + 1][..k] == chunks[..k];
        out := out + [Store(ChunkName(name, k), chunks[k])];
      }
      assert chunks[..|chunks|] == chunks;
    }
  }

  lemma {:induction false} MissingPart(name: string, req: Jar, i: nat, n: nat)
    requires i < n && ChunkName(name, i) !in req
    ensures JoinParts(name, req, n) == None
  {
    if n > i + 1 {
      MissingPart(name, req, i, n - 1);
    }
  }
}
