/** A value set in one request and loaded in a later one: the session objects, the jar between them, and the expiry. */
module SessionReload {
  import opened Text
  import opened CookieSession
  import opened CookieJar
  import opened CookieHistory

  /** A payload that encodes decodes to itself, and its wire is a real one. */
  ghost predicate CodecLaw<T(!new)>(encode: Payload<T> -> Option<string>, decode: string -> Option<Payload<T>>) {
    forall p :: encode(p).Some? ==> decode(encode(p).value) == Some(p) && RealOp(Put(encode(p).value))
  }

  /** The expiry a session has when it is opened on these cookies. */
  function LoadedExpiry<T>(name: string, jar: Jar, decode: string -> Option<Payload<T>>, now: int): Option<int> {
    match Load(name, jar, decode, now)
    case Current(p) => p.expires
    case _ => None
  }

  lemma PutReadsBack(name: string, jar: Jar, st: State, wire: string)
    requires Keeps(name, jar, st) && RealOp(Put(wire))
    ensures ReadWire(name, ApplyAll(jar, FlushCookies(name, jar, wire))) == Some(wire)
  {
    OneOpReadsBack(name, jar, st, [], Put(wire));
    JarAfterMore(name, jar, [], [Put(wire)]);
    assert [Put(wire)][..0] == [];
    assert Response(name, jar, []) == [];
    assert [] + FlushCookies(name, jar, wire) == FlushCookies(name, jar, wire);
    assert [] + [[Put(wire)]] == [[Put(wire)]];
  }

  /** The first request: open and set; the headers of the response. */
  method OpenAndSet<T>(name: string, jar: Jar, encode: Payload<T> -> Option<string>,
                       decode: string -> Option<Payload<T>>, maxAge: int, zero: T, v: T, now: int)
    returns (ok: bool, headers: seq<SetCookie>)
    ensures var expires := if maxAge > 0 then Some(now + maxAge) else LoadedExpiry(name, jar, decode, now);
      var wire := encode(Payload(v, expires));
      ok == wire.Some? && headers == if ok then FlushCookies(name, jar, wire.value) else []
  {
    var first, _ := Session.Open(name, jar, encode, decode, maxAge, zero, now);
    assert first.p.expires == LoadedExpiry(name, jar, decode, now);
    ok := first.Set(v, now);
    headers := first.out;
    assert ok ==> headers == [] + FlushCookies(name, jar, encode(first.p).value);
  }

  /** What the browser has afterwards. */
  method SetOnce<T(!new)>(name: string, jar: Jar, ghost st: State, encode: Payload<T> -> Option<string>,
                          decode: string -> Option<Payload<T>>, maxAge: int, zero: T, v: T, now: int)
    returns (ok: bool, after: Jar, ghost expires: Option<int>)
    requires Keeps(name, jar, st) && CodecLaw(encode, decode)
    ensures expires == if maxAge > 0 then Some(now + maxAge) else LoadedExpiry(name, jar, decode, now)
    ensures ok <==> encode(Payload(v, expires)).Some?
    ensures ok ==> ReadWire(name, after) == encode(Payload(v, expires))
  {
    expires := if maxAge > 0 then Some(now + maxAge) else LoadedExpiry(name, jar, decode, now);
    var headers;
    ok, headers := OpenAndSet(name, jar, encode, decode, maxAge, zero, v, now);
    if ok {
      PutReadsBack(name, jar, st, encode(Payload(v, expires)).value);
    }
    after := ApplyAll(jar, headers);
  }

  lemma LoadsUntil<T>(name: string, jar: Jar, decode: string -> Option<Payload<T>>, p: Payload<T>, later: int)
    requires ReadWire(name, jar).Some? && decode(ReadWire(name, jar).value) == Some(p)
    ensures Load(name, jar, decode, later)
         == if p.expires.None? || later <= p.expires.value then Current(p) else ExpiredSession
  {
  }

  /**
   Open a session on any reachable jar and set a value now; the browser applies the response; open
   it again later. The value is there until maxAge has passed (or, without a maxAge, until the
   expiry it came with), and from then on the session is empty and marked for deletion.
   */
  method SetAndReload<T(!new)>(name: string, jar: Jar, ghost st: State, encode: Payload<T> -> Option<string>,
                               decode: string -> Option<Payload<T>>, maxAge: int, zero: T, v: T, now: int, later: int)
    returns (ok: bool, s: Session<T>, err: bool, ghost expires: Option<int>)
    requires Keeps(name, jar, st) && CodecLaw(encode, decode)
    ensures expires == if maxAge > 0 then Some(now + maxAge) else LoadedExpiry(name, jar, decode, now)
    ensures ok <==> encode(Payload(v, expires)).Some?
    ensures ok && (expires.None? || later <= expires.value) ==>
      s.p == Payload(v, expires) && !err && !s.destroyed && !s.dirty
    ensures ok && expires.Some? && later > expires.value ==>
      s.p == Payload(zero, None) && !err && s.destroyed && s.dirty
  {
    var after;
    ok, after, expires := SetOnce(name, jar, st, encode, decode, maxAge, zero, v, now);
    if ok {
      LoadsUntil(name, after, decode, Payload(v, expires), later);
    }
    s, err := Session.Open(name, after, encode, decode, maxAge, zero, later);
  }
}
