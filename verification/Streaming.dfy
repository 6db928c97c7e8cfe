/**
 The streaming render path under an adversarial client: the request context may
 die at any moment and any write may fail after any number of bytes.
 */
module Streaming {
  import opened Text

  datatype WriteResult = Written | Failed(accepted: nat, disconnect: bool)

  /**
   The client. `dead(t)` is whether the request context is done at the t-th moment the
   renderer looks; `write(k)` is what happens to the k-th write.
   */
  datatype Client = Client(dead: nat -> bool, write: nat -> WriteResult)

  datatype WriteError = NoError | Disconnected | OtherFailure

  /** What reaches the wire when `buf` is written and the write ends like `r`. */
  function Accepted(buf: string, r: WriteResult): string {
    if r.Written? then buf else buf[..if r.accepted < |buf| then r.accepted else |buf|]
  }

  function ErrorOf(buf: string, r: WriteResult): WriteError {
    if |buf| == 0 || r.Written? then NoError else if r.disconnect then Disconnected else OtherFailure
  }

  class Writer {
    var buf: string

    constructor ()
      ensures buf == ""
    {
      buf := "";
    }

    method WriteString(s: string)
      modifies this
      ensures buf == old(buf) + s
    {
      buf := buf + s;
    }

    /** FlushTo: nothing to write cannot fail; a failed write keeps the buffer. */
    method FlushTo(c: Client, k: nat, sent: string) returns (err: WriteError, sent': string)
      modifies this
      ensures err == ErrorOf(old(buf), c.write(k))
      ensures sent' == sent + Accepted(old(buf), c.write(k))
      ensures buf == if err == NoError then "" else old(buf)
    {
      err, sent' := NoError, sent;
      if |buf| > 0 {
        var r := c.write(k);
        sent' := sent + Accepted(buf, r);
        if r.Failed? {
          err := if r.disconnect then Disconnected else OtherFailure;
          return;
        }
        buf := "";
      }
    }
  }

  /** The fixed text around the streams; `body` is what the page wrote, or nothing if it failed. */
  datatype Document = Document(
    shellHead: string, headBytes: string, headAssetTags: string, shellMid: string,
    body: Option<string>, payloadTag: string,
    bodyEntryTag: string, serviceWorkerTag: string, shellTail: string)

  /** A deferred value: the script its outcome becomes, and whether its producer can be cancelled. */
  datatype Stream = Stream(script: string, cancellable: bool)

  function Opening(d: Document): string
    requires d.body.Some?
  {
    d.shellHead + d.headBytes + d.headAssetTags + d.shellMid + d.body.value + d.payloadTag
  }

  function Closing(d: Document): string {
    d.bodyEntryTag + d.serviceWorkerTag + d.shellTail
  }

  function Scripts(streams: seq<Stream>): string {
    if |streams| == 0 then "" else Scripts(streams[..|streams| - 1]) + streams[|streams| - 1].script
  }

  /** Opening and the first n resolve scripts. */
  function SoFar(d: Document, streams: seq<Stream>, n: nat): string
    requires d.body.Some? && n <= |streams|
  {
    Opening(d) + Scripts(streams[..n])
  }

  function Whole(d: Document, streams: seq<Stream>): string
    requires d.body.Some?
  {
    SoFar(d, streams, |streams|) + Closing(d)
  }

  lemma SoFarNext(d: Document, streams: seq<Stream>, n: nat)
    requires d.body.Some? && n < |streams|
    ensures SoFar(d, streams, n + 1) == SoFar(d, streams, n) + streams[n].script
  {
    assert streams[..n + 1][..n] == streams[..n];
  }

  lemma {:induction false} SoFarPrefix(d: Document, streams: seq<Stream>, n: nat)
    requires d.body.Some? && n <= |streams|
    ensures SoFar(d, streams, n) <= Whole(d, streams)
    decreases |streams| - n
  {
    if n < |streams| {
      SoFarNext(d, streams, n);
      SoFarPrefix(d, streams, n + 1);
    }
  }

  /** 0, 1, ..., n-1. */
  function Upto(n: nat): seq<nat> {
    seq(n, i => i)
  }

  /** The cancellable streams from position n on, in order. */
  function CancellableFrom(streams: seq<Stream>, n: nat): seq<nat>
    requires n <= |streams|
    decreases |streams| - n
  {
    if n == |streams| then []
    else (if streams[n].cancellable then [n] else []) + CancellableFrom(streams, n + 1)
  }

  method CancelStreams(streams: seq<Stream>, from: nat) returns (cancelled: seq<nat>)
    requires from <= |streams|
    ensures cancelled == CancellableFrom(streams, from)
  {
    cancelled := [];
    for i := from to |streams|
      invariant cancelled + CancellableFrom(streams, i) == CancellableFrom(streams, from)
    {
      if streams[i].cancellable {
        cancelled := cancelled + [i];
      }
    }
  }

  datatype Outcome = Done | ClientGone | PageError | WriteFailed

  /** isClientGone, when the context is looked at at moment t. */
  predicate IsClientGone(c: Client, t: nat, err: WriteError) {
    err != NoError && (c.dead(t) || err == Disconnected)
  }

  // ----------------------------------------------------- what is promised

  /** There is something to flush, and the write fails. */
  predicate Fails(buf: string, r: WriteResult) {
    |buf| > 0 && r.Failed?
  }

  /** What a failed write means when the context is looked at at moment t. */
  function FailureAt(c: Client, t: nat, r: WriteResult): Outcome
    requires r.Failed?
  {
    if c.dead(t) || r.disconnect then ClientGone else WriteFailed
  }

  /** Stream i is the last one waited on: the context is done before or after its flush, or the flush fails. */
  predicate StopsAt(streams: seq<Stream>, c: Client, i: nat)
    requires i < |streams|
  {
    c.dead(3 * i + 1) || Fails(streams[i].script, c.write(i + 1)) || c.dead(3 * i + 3)
  }

  /** The first stream to stop at, or the number of streams when there is none. */
  ghost predicate FirstStop(streams: seq<Stream>, c: Client, n: nat) {
    && n <= |streams|
    && (n < |streams| ==> StopsAt(streams, c, n))
    && forall j: nat :: j < n ==> !StopsAt(streams, c, j)
  }

  /** What stopping at stream i reports, and what has been sent by then. */
  ghost predicate StoppedAt(d: Document, streams: seq<Stream>, c: Client, i: nat, r: Outcome, sent: string)
    requires d.body.Some? && i < |streams|
  {
    if c.dead(3 * i + 1) then r == ClientGone && sent == SoFar(d, streams, i)
    else if Fails(streams[i].script, c.write(i + 1)) then
      && r == FailureAt(c, 3 * i + 2, c.write(i + 1))
      && sent == SoFar(d, streams, i) + Accepted(streams[i].script, c.write(i + 1))
    else r == Done && sent == SoFar(d, streams, i + 1)
  }

  /** What is reported and sent when no stream stopped the loop: the tail decides. */
  ghost predicate TailReport(d: Document, streams: seq<Stream>, c: Client, r: Outcome, sent: string)
    requires d.body.Some?
  {
    var n := |streams|;
    && r == (if Fails(Closing(d), c.write(n + 1)) then FailureAt(c, 3 * n + 1, c.write(n + 1)) else Done)
    && sent == SoFar(d, streams, n) + Accepted(Closing(d), c.write(n + 1))
  }

  /** What is cancelled: every cancellable stream not waited on, unless a write failed for another reason. */
  predicate Cancels(streams: seq<Stream>, waited: seq<nat>, r: Outcome, cancelled: seq<nat>) {
    |waited| <= |streams| && cancelled == if r == WriteFailed then [] else CancellableFrom(streams, |waited|)
  }

  /** The report when stream n is the first to stop at, or none is. */
  ghost predicate LoopReport(d: Document, streams: seq<Stream>, c: Client, n: nat,
                             r: Outcome, sent: string, waited: seq<nat>, cancelled: seq<nat>)
    requires d.body.Some? && n <= |streams|
  {
    && Cancels(streams, waited, r, cancelled)
    && if n < |streams| then waited == Upto(n + 1) && StoppedAt(d, streams, c, n, r, sent)
       else waited == Upto(n) && TailReport(d, streams, c, r, sent)
  }

  /** The whole promise of renderStreaming: outcome, bytes on the wire, streams waited on and cancelled. */
  ghost predicate Report(d: Document, streams: seq<Stream>, c: Client,
                         r: Outcome, sent: string, waited: seq<nat>, cancelled: seq<nat>) {
    if d.body.None? then r == PageError && sent == "" && waited == [] && cancelled == []
    else if Fails(Opening(d), c.write(0)) then
      && r == FailureAt(c, 0, c.write(0))
      && sent == Accepted(Opening(d), c.write(0))
      && waited == []
      && Cancels(streams, waited, r, cancelled)
    else forall n :: FirstStop(streams, c, n) ==> LoopReport(d, streams, c, n, r, sent, waited, cancelled)
  }

  // ----------------------------------------------------------------- the code

  lemma FlushOutcome(c: Client, t: nat, buf: string, r: WriteResult)
    ensures ErrorOf(buf, r) != NoError <==> Fails(buf, r)
    ensures Fails(buf, r) ==>
      FailureAt(c, t, r) == if IsClientGone(c, t, ErrorOf(buf, r)) then ClientGone else WriteFailed
    ensures !Fails(buf, r) ==> Accepted(buf, r) == buf
  {
  }

  /** The flush of stream i's script and the look at the context behind it. */
  method FlushScript(buf: Writer, d: Document, streams: seq<Stream>, c: Client, i: nat, sent0: string)
    returns (stop: Option<Outcome>, sent: string)
    requires d.body.Some? && i < |streams| && buf.buf == streams[i].script && sent0 == SoFar(d, streams, i)
    requires !c.dead(3 * i + 1)
    modifies buf
    ensures stop.Some? <==> StopsAt(streams, c, i)
    ensures stop.Some? ==> StoppedAt(d, streams, c, i, stop.value, sent)
    ensures stop == None ==> sent == SoFar(d, streams, i + 1) && buf.buf == ""
  {
    SoFarNext(d, streams, i);
    FlushOutcome(c, 3 * i + 2, streams[i].script, c.write(i + 1));
    var err;
    err, sent := buf.FlushTo(c, i + 1, sent0);
    if err != NoError {
      return Some(if IsClientGone(c, 3 * i + 2, err) then ClientGone else WriteFailed), sent;
    }
    return if c.dead(3 * i + 3) then Some(Done) else None, sent;
  }

  /**
   One turn of the loop: wait, look at the context, flush, look again. Moments 3i+1, 3i+2,
   3i+3 and write i+1 belong to stream i; `stop` is the outcome of an early return.
   */
  method EmitScript(buf: Writer, d: Document, streams: seq<Stream>, c: Client, i: nat, sent0: string)
    returns (stop: Option<Outcome>, sent: string)
    requires d.body.Some? && buf.buf == "" && i < |streams| && sent0 == SoFar(d, streams, i)
    modifies buf
    ensures stop.Some? <==> StopsAt(streams, c, i)
    ensures stop.Some? ==> StoppedAt(d, streams, c, i, stop.value, sent)
    ensures stop == None ==> sent == SoFar(d, streams, i + 1) && buf.buf == ""
  {
    buf.WriteString(streams[i].script);
    if c.dead(3 * i + 1) {
      return Some(ClientGone), sent0;
    }
    stop, sent := FlushScript(buf, d, streams, c, i, sent0);
  }

  /** The loop over the streams, with the cancellation of the ones not reached. */
  method StreamScripts(buf: Writer, d: Document, streams: seq<Stream>, c: Client, sent0: string)
    returns (stop: Option<Outcome>, sent: string, waited: seq<nat>, cancelled: seq<nat>, ghost n: nat)
    requires d.body.Some? && buf.buf == "" && sent0 == SoFar(d, streams, 0)
    modifies buf
    ensures FirstStop(streams, c, n) && (stop.Some? <==> n < |streams|)
    ensures stop.Some? ==> LoopReport(d, streams, c, n, stop.value, sent, waited, cancelled)
    ensures stop == None ==>
      sent == SoFar(d, streams, |streams|) && waited == Upto(|streams|) && cancelled == [] && buf.buf == ""
  {
    stop, waited, cancelled, sent, n := None, [], [], sent0, 0;
    for i := 0 to |streams|
      invariant buf.buf == "" && stop == None && sent == SoFar(d, streams, i)
      invariant waited == Upto(i) && cancelled == [] && n == i
      invariant forall j: nat :: j < i ==> !StopsAt(streams, c, j)
    {
      waited := waited + [i];
      stop, sent := EmitScript(buf, d, streams, c, i, sent);
      if stop.Some? {
        if stop.value != WriteFailed {
          cancelled := CancelStreams(streams, i + 1);
        }
        return;
      }
      n := i + 1;
    }
  }

  /** The last flush, at moment 3n+1 and as write n+1. */
  method FlushTail(buf: Writer, d: Document, streams: seq<Stream>, c: Client, sent0: string)
    returns (r: Outcome, sent: string)
    requires d.body.Some? && buf.buf == "" && sent0 == SoFar(d, streams, |streams|)
    modifies buf
    ensures TailReport(d, streams, c, r, sent)
  {
    WriteClosing(buf, d);
    var err;
    err, sent := buf.FlushTo(c, |streams| + 1, sent0);
    FlushOutcome(c, 3 * |streams| + 1, Closing(d), c.write(|streams| + 1));
    r := if err == NoError then Done else if IsClientGone(c, 3 * |streams| + 1, err) then ClientGone else WriteFailed;
  }

  lemma TailCancels(d: Document, streams: seq<Stream>, c: Client, r: Outcome, sent: string)
    requires d.body.Some? && TailReport(d, streams, c, r, sent)
    ensures LoopReport(d, streams, c, |streams|, r, sent, Upto(|streams|), [])
  {
    assert |Upto(|streams|)| == |streams| && CancellableFrom(streams, |streams|) == [];
  }

  lemma OneFirstStop(streams: seq<Stream>, c: Client, m: nat, n: nat)
    requires FirstStop(streams, c, m) && FirstStop(streams, c, n)
    ensures m == n
  {
  }

  /** One report of the loop is the report. */
  lemma Reported(d: Document, streams: seq<Stream>, c: Client, n: nat,
                 r: Outcome, sent: string, waited: seq<nat>, cancelled: seq<nat>)
    requires d.body.Some? && !Fails(Opening(d), c.write(0)) && FirstStop(streams, c, n)
    requires LoopReport(d, streams, c, n, r, sent, waited, cancelled)
    ensures Report(d, streams, c, r, sent, waited, cancelled)
  {
    forall m | FirstStop(streams, c, m)
      ensures LoopReport(d, streams, c, m, r, sent, waited, cancelled)
    {
      OneFirstStop(streams, c, m, n);
    }
  }

  /** renderStreaming. Moment 0 and write 0 are the shell flush. */
  method RenderStreaming(d: Document, streams: seq<Stream>, c: Client)
    returns (r: Outcome, sent: string, waited: seq<nat>, cancelled: seq<nat>)
    ensures Report(d, streams, c, r, sent, waited, cancelled)
  {
    waited, cancelled, sent := [], [], "";
    if d.body.None? {
      return PageError, sent, waited, cancelled;
    }
    var buf := new Writer();
    WriteOpening(buf, d);
    var err;
    err, sent := buf.FlushTo(c, 0, sent);
    FlushOutcome(c, 0, Opening(d), c.write(0));
    if err != NoError {
      if IsClientGone(c, 0, err) {
        cancelled := CancelStreams(streams, 0);
        return ClientGone, sent, waited, cancelled;
      }
      return WriteFailed, sent, waited, cancelled;
    }
    assert Opening(d) == SoFar(d, streams, 0);
    var stop;
    ghost var n;
    stop, sent, waited, cancelled, n := StreamScripts(buf, d, streams, c, sent);
    if stop.Some? {
      Reported(d, streams, c, n, stop.value, sent, waited, cancelled);
      return stop.value, sent, waited, cancelled;
    }
    r, sent := FlushTail(buf, d, streams, c, sent);
    TailCancels(d, streams, c, r, sent);
    Reported(d, streams, c, n, r, sent, waited, cancelled);
  }

  // -------------------------------------------------------- what follows from it

  /** There is always a first stream to stop at, or none. */
  lemma {:induction false} SomeFirstStop(streams: seq<Stream>, c: Client, i: nat) returns (n: nat)
    requires i <= |streams| && forall j: nat :: j < i ==> !StopsAt(streams, c, j)
    ensures FirstStop(streams, c, n)
    decreases |streams| - i
  {
    if i == |streams| || StopsAt(streams, c, i) {
      n := i;
    } else {
      n := SomeFirstStop(streams, c, i + 1);
    }
  }

  predicate Increasing(xs: seq<nat>) {
    forall i, j :: 0 <= i < j < |xs| ==> xs[i] < xs[j]
  }

  lemma {:induction false} CancellableLater(streams: seq<Stream>, n: nat)
    requires n <= |streams|
    ensures forall k :: k in CancellableFrom(streams, n) <==> n <= k < |streams| && streams[k].cancellable
    ensures Increasing(CancellableFrom(streams, n))
    decreases |streams| - n
  {
    if n < |streams| {
      CancellableLater(streams, n + 1);
      var rest := CancellableFrom(streams, n + 1);
      forall i | 0 <= i < |rest|
        ensures rest[i] > n
      {
        assert rest[i] in rest;
      }
    }
  }

  /** The streams waited on are a first part of them, in order. */
  lemma WaitsInOrder(d: Document, streams: seq<Stream>, c: Client,
                     r: Outcome, sent: string, waited: seq<nat>, cancelled: seq<nat>)
    requires Report(d, streams, c, r, sent, waited, cancelled)
    ensures waited == Upto(|waited|) && |waited| <= |streams|
    ensures r != PageError ==> Cancels(streams, waited, r, cancelled)
  {
    if d.body.Some? && !Fails(Opening(d), c.write(0)) {
      var n := SomeFirstStop(streams, c, 0);
      assert LoopReport(d, streams, c, n, r, sent, waited, cancelled);
    }
  }

  /** On Done and ClientGone every stream is waited on or (if it can be) cancelled, never both, never twice. */
  lemma EveryStreamOnce(d: Document, streams: seq<Stream>, c: Client,
                        r: Outcome, sent: string, waited: seq<nat>, cancelled: seq<nat>, k: nat)
    requires Report(d, streams, c, r, sent, waited, cancelled) && k < |streams|
    requires r == Done || r == ClientGone
    ensures k in cancelled <==> k !in waited && streams[k].cancellable
    ensures Increasing(waited) && Increasing(cancelled)
  {
    WaitsInOrder(d, streams, c, r, sent, waited, cancelled);
    CancellableLater(streams, |waited|);
    assert k < |waited| ==> waited[k] == k;
  }

  /** A client that stays connected is sent the whole document, and no stream is cancelled. */
  lemma LiveClientGetsEverything(d: Document, streams: seq<Stream>, c: Client,
                                 r: Outcome, sent: string, waited: seq<nat>, cancelled: seq<nat>)
    requires Report(d, streams, c, r, sent, waited, cancelled)
    requires d.body.Some? && (forall t: nat :: !c.dead(t)) && (forall k: nat :: c.write(k).Written?)
    ensures r == Done && sent == Whole(d, streams) && waited == Upto(|streams|) && cancelled == []
  {
    assert FirstStop(streams, c, |streams|);
    assert LoopReport(d, streams, c, |streams|, r, sent, waited, cancelled);
  }

  /** After the context is done nothing more is waited on: with the first t streams behind, at most one more is. */
  lemma DeadClientStops(d: Document, streams: seq<Stream>, c: Client,
                        r: Outcome, sent: string, waited: seq<nat>, cancelled: seq<nat>, t: nat)
    requires Report(d, streams, c, r, sent, waited, cancelled)
    requires forall u: nat :: u > 3 * t ==> c.dead(u)
    ensures |waited| <= t + 1
  {
    if d.body.Some? && !Fails(Opening(d), c.write(0)) {
      var n := SomeFirstStop(streams, c, 0);
      assert LoopReport(d, streams, c, n, r, sent, waited, cancelled);
      assert t < |streams| ==> StopsAt(streams, c, t);
    }
  }

  /** A context that is done once the shell is out: one stream waited on, the others cancelled, nothing more sent. */
  lemma DeadFromTheStart(d: Document, streams: seq<Stream>, c: Client,
                         r: Outcome, sent: string, waited: seq<nat>, cancelled: seq<nat>)
    requires Report(d, streams, c, r, sent, waited, cancelled) && |streams| > 0
    requires d.body.Some? && !Fails(Opening(d), c.write(0)) && c.dead(1)
    ensures r == ClientGone && waited == [0] && cancelled == CancellableFrom(streams, 1) && sent == Opening(d)
  {
    assert StopsAt(streams, c, 0) && FirstStop(streams, c, 0);
    assert LoopReport(d, streams, c, 0, r, sent, waited, cancelled);
    assert SoFar(d, streams, 0) == Opening(d);
  }

  lemma AcceptedPrefix(before: string, more: string, w: WriteResult)
    ensures before <= before + Accepted(more, w) <= before + more
  {
  }

  lemma StoppedPrefix(d: Document, streams: seq<Stream>, c: Client, i: nat, r: Outcome, sent: string)
    requires d.body.Some? && i < |streams| && StoppedAt(d, streams, c, i, r, sent)
    ensures sent <= SoFar(d, streams, i + 1)
  {
    SoFarNext(d, streams, i);
    AcceptedPrefix(SoFar(d, streams, i), streams[i].script, c.write(i + 1));
  }

  /** Whatever happens, what the client has is the beginning of the document. */
  lemma SentIsPrefix(d: Document, streams: seq<Stream>, c: Client,
                     r: Outcome, sent: string, waited: seq<nat>, cancelled: seq<nat>)
    requires Report(d, streams, c, r, sent, waited, cancelled) && d.body.Some?
    ensures sent <= Whole(d, streams)
  {
    SoFarPrefix(d, streams, 0);
    assert SoFar(d, streams, 0) == Opening(d);
    if Fails(Opening(d), c.write(0)) {
      AcceptedPrefix("", Opening(d), c.write(0));
    } else {
      var n := SomeFirstStop(streams, c, 0);
      assert LoopReport(d, streams, c, n, r, sent, waited, cancelled);
      if n < |streams| {
        StoppedPrefix(d, streams, c, n, r, sent);
        SoFarPrefix(d, streams, n + 1);
      } else {
        AcceptedPrefix(SoFar(d, streams, n), Closing(d), c.write(n + 1));
      }
    }
  }

  method WriteOpening(buf: Writer, d: Document)
    requires d.body.Some? && buf.buf == ""
    modifies buf
    ensures buf.buf == Opening(d)
  {
    buf.WriteString(d.shellHead);
    if |d.headBytes| > 0 {
      buf.WriteString(d.headBytes);
    }
    if d.headAssetTags != "" {
      buf.WriteString(d.headAssetTags);
    }
    buf.WriteString(d.shellMid);
    buf.WriteString(d.body.value);
    buf.WriteString(d.payloadTag);
  }

  method WriteClosing(buf: Writer, d: Document)
    requires buf.buf == ""
    modifies buf
    ensures buf.buf == Closing(d)
  {
    if d.bodyEntryTag != "" {
      buf.WriteString(d.bodyEntryTag);
    }
    if d.serviceWorkerTag != "" {
      buf.WriteString(d.serviceWorkerTag);
    }
    buf.WriteString(d.shellTail);
  }

  // ---------------------------------------------------- the page that is not streamed

  /** Appending nothing does not need to be asked for. */
  method Append(buf: string, s: string) returns (buf': string)
    ensures buf' == buf + s
  {
    return if s != "" then buf + s else buf;
  }

  /** What stands before the page in the buffer. */
  method BufferHead(d: Document) returns (buf: string)
    ensures buf == d.shellHead + d.headBytes + d.headAssetTags + d.shellMid
  {
    buf := Append(d.shellHead, d.headBytes);
    buf := Append(buf, d.headAssetTags);
    buf := buf + d.shellMid;
  }

  method BufferTail(buf0: string, d: Document) returns (buf: string)
    ensures buf == buf0 + d.bodyEntryTag + d.serviceWorkerTag + d.shellTail
  {
    buf := Append(buf0, d.bodyEntryTag);
    buf := Append(buf, d.serviceWorkerTag);
    buf := buf + d.shellTail;
  }

  lemma FourTexts(a: string, b: string, c: string, e: string)
    ensures a + b + c + e == a + "" + (b + c + e)
  {
  }

  /** renderPage without streams buffers the document that streaming sends when there are none. */
  method RenderBuffered(d: Document) returns (text: Option<string>)
    ensures text == if d.body.None? then None else Some(Whole(d, []))
  {
    var buf := BufferHead(d);
    if d.body.None? {
      return None;
    }
    buf := buf + d.body.value;
    buf := buf + d.payloadTag;
    assert buf == Opening(d);
    buf := BufferTail(buf, d);
    FourTexts(Opening(d), d.bodyEntryTag, d.serviceWorkerTag, d.shellTail);
    return Some(buf);
  }
}
