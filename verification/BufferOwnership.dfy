/**
 Who owns a pooled render.Writer while one request runs. renderPage hands its
 buffer's bytes to the response without copying, so the buffer must outlive
 writeResponse, and the Handle hook may call resolve any number of times.

 Each Acquire starts a lease, numbered in order; `releases[n]` counts how often
 lease n was given back. The bytes of a lease may be read only while that is 0.
 */
module BufferOwnership {
  import opened Text

  /** How a page render ends; a panic unwinds through the same deferred release as an error. */
  datatype PageResult = Rendered | RenderError | RenderPanic

  /** A child a layout renders into a buffer of its own, and the children rendered inside it. */
  datatype Slot = Slot(inside: seq<Slot>)

  /** One call of resolve made by the hook; `head` says whether a side buffer gathers head tags. */
  datatype Resolve =
    | Page(head: bool, slots: seq<Slot>, result: PageResult)
    | HeadFailed                                // gathering the head failed or panicked
    | Streamed(head: bool, slots: seq<Slot>)    // the streaming path defers the release of its buffer
    | Shell                                     // a Svelte route without a page handler; the body is a copy
    | NoBuffer                                  // redirect, server route, empty shell, not found, ...

  /**
   What the hook finally does. `page` picks one of the page responses it got; an error or a panic
   is answered by the error page of the route, with its own slots, if there is one.
   */
  datatype HookResult = Respond(page: nat) | RespondOther | NilResponse | Fail(boundary: Option<seq<Slot>>)

  function Pages(calls: seq<Resolve>): nat {
    if |calls| == 0 then 0
    else
      var last := calls[|calls| - 1];
      Pages(calls[..|calls| - 1]) + if last.Page? && last.result == Rendered then 1 else 0
  }

  function Buffers(slots: seq<Slot>): nat {
    if |slots| == 0 then 0 else 1 + Buffers(slots[0].inside) + Buffers(slots[1..])
  }

  function Leases(call: Resolve): nat {
    match call
    case Page(head, slots, _) => (if head then 2 else 1) + Buffers(slots)
    case HeadFailed => 1
    case Streamed(head, slots) => (if head then 2 else 1) + Buffers(slots)
    case Shell => 1
    case NoBuffer => 0
  }

  function BoundaryLeases(result: HookResult): nat {
    if result.Fail? && result.boundary.Some? then 1 + Buffers(result.boundary.value) else 0
  }

  /** n leases, each given back once. */
  function Returned(n: nat): seq<nat> {
    seq(n, _ => 1)
  }

  function TotalLeases(calls: seq<Resolve>): nat {
    if |calls| == 0 then 0 else TotalLeases(calls[..|calls| - 1]) + Leases(calls[|calls| - 1])
  }

  /** Every lease was released once, except the live one. */
  ghost predicate Ledger(releases: seq<nat>, live: Option<nat>) {
    && (live.Some? ==> live.value < |releases|)
    && forall n :: 0 <= n < |releases| ==> releases[n] == if live == Some(n) then 0 else 1
  }

  /** The live lease is behind the newest page response. */
  predicate Newest(responses: seq<nat>, live: Option<nat>) {
    live == if |responses| == 0 then None else Some(responses[|responses| - 1])
  }

  predicate Ascending(responses: seq<nat>, hi: nat) {
    && (forall i, j :: 0 <= i < j < |responses| ==> responses[i] < responses[j])
    && (forall i :: 0 <= i < |responses| ==> responses[i] < hi)
  }

  lemma LedgerGrows(releases: seq<nat>, live: Option<nat>, n: nat)
    requires Ledger(releases, live)
    ensures Ledger(releases + Returned(n), live)
  {
  }

  /** A new live lease takes over from the old one, which is given back. */
  lemma LedgerMoves(releases: seq<nat>, live: Option<nat>, n: nat, after: seq<nat>)
    requires Ledger(releases, live)
    requires var grown := releases + [0] + Returned(n);
      after == if live.Some? then grown[live.value := grown[live.value] + 1] else grown
    ensures Ledger(after, Some(|releases|))
  {
  }

  class Request {
    var releases: seq<nat>
    var pageBuf: Option<nat>
    var responses: seq<nat>     // the lease behind each page response, oldest first

    /** Every lease has been released once, except the one behind the newest page response. */
    ghost predicate Valid()
      reads this
    {
      Newest(responses, pageBuf) && Ascending(responses, |releases|) && Ledger(releases, pageBuf)
    }

    constructor ()
      ensures Valid() && releases == [] && responses == []
    {
      releases, pageBuf, responses := [], None, [];
    }

    method Acquire() returns (n: nat)
      modifies this`releases
      ensures n == |old(releases)| && releases == old(releases) + [0]
    {
      n := |releases|;
      releases := releases + [0];
    }

    method Release(n: nat)
      requires n < |releases|
      modifies this`releases
      ensures releases == old(releases)[n := old(releases)[n] + 1]
    {
      releases := releases[n := releases[n] + 1];
    }

    /** Layout adapters: each child has its buffer while it is rendered, whatever it renders inside. */
    method UseSlots(slots: seq<Slot>)
      modifies this`releases
      ensures releases == old(releases) + Returned(Buffers(slots))
      decreases slots, 0
    {
      if |slots| > 0 {
        UseBuffer(slots[0].inside);
        UseSlots(slots[1..]);
      }
    }

    /** A buffer taken by one function and given back through defer, with slots rendered in between. */
    method UseBuffer(slots: seq<Slot>)
      modifies this`releases
      ensures releases == old(releases) + Returned(1 + Buffers(slots))
      decreases slots, 1
    {
      var n := Acquire();
      UseSlots(slots);
      Release(n);
    }

    /** The same between two states of the request. */
    method UseMore(slots: seq<Slot>)
      requires Valid()
      modifies this`releases
      ensures Valid() && |releases| == |old(releases)| + 1 + Buffers(slots)
    {
      LedgerGrows(releases, pageBuf, 1 + Buffers(slots));
      UseBuffer(slots);
    }

    /** gatherHead's side buffer, where there is a head to gather. */
    method UseHead(head: bool)
      requires Valid()
      modifies this`releases
      ensures Valid() && |releases| == |old(releases)| + if head then 1 else 0
    {
      if head {
        UseMore([]);
      }
    }

    /** The buffered part of renderPage. */
    method RenderBuffered(slots: seq<Slot>, result: PageResult)
      requires Valid()
      modifies this
      ensures Valid() && |releases| == |old(releases)| + 1 + Buffers(slots)
      ensures |responses| == |old(responses)| + if result == Rendered then 1 else 0
    {
      ghost var before := releases;
      var buf := Acquire();
      UseSlots(slots);
      if result != Rendered {
        Release(buf);
        assert releases == before + Returned(1 + Buffers(slots));
        LedgerGrows(before, pageBuf, 1 + Buffers(slots));
        return;
      }
      if pageBuf.Some? {
        Release(pageBuf.value);
      }
      LedgerMoves(before, pageBuf, Buffers(slots), releases);
      pageBuf := Some(buf);
      responses := responses + [buf];
    }

    method Resolve(call: Resolve)
      requires Valid()
      modifies this
      ensures Valid() && |releases| == |old(releases)| + Leases(call)
      ensures |responses| == |old(responses)| + if call.Page? && call.result == Rendered then 1 else 0
    {
      match call
      case NoBuffer =>
      case Shell => UseMore([]);
      case HeadFailed => UseMore([]);
      case Streamed(head, slots) =>
        UseHead(head);
        UseMore(slots);
      case Page(head, slots, result) =>
        UseHead(head);
        RenderBuffered(slots, result);
    }

    /** The error page, where an error is answered by one. */
    method RenderBoundary(result: HookResult)
      requires Valid()
      modifies this`releases
      ensures Valid() && |releases| == |old(releases)| + BoundaryLeases(result)
    {
      if result.Fail? && result.boundary.Some? {
        UseMore(result.boundary.value);
      }
    }
  }

  /** The hook answers with a page response that a later resolve has already replaced. */
  predicate AnswersStalePage(calls: seq<Resolve>, result: HookResult) {
    result.Respond? && result.page + 1 < Pages(calls)
  }

  /**
   handle: run the hook (any calls, any result), write the response or the error page, then release.
   Every lease is released exactly once, and the bytes written are still owned exactly
   when the hook did not answer with a replaced page.
   */
  method Handle(calls: seq<Resolve>, result: HookResult) returns (releases: seq<nat>, bodyLive: bool)
    requires result.Respond? ==> result.page < Pages(calls)
    ensures |releases| == TotalLeases(calls) + BoundaryLeases(result)
    ensures forall n :: 0 <= n < |releases| ==> releases[n] == 1
    ensures bodyLive <==> !AnswersStalePage(calls, result)
  {
    var req := new Request();
    for i := 0 to |calls|
      invariant req.Valid() && fresh(req)
      invariant |req.releases| == TotalLeases(calls[..i])
      invariant |req.responses| == Pages(calls[..i])
    {
      assert calls[..i + 1][..i] == calls[..i];
      req.Resolve(calls[i]);
    }
    assert calls[..|calls|] == calls;
    bodyLive := true;
    if result.Respond? {
      var lease := req.responses[result.page];
      bodyLive := req.releases[lease] == 0;
    }
    req.RenderBoundary(result);
    if req.pageBuf.Some? {
      req.Release(req.pageBuf.value);
    }
    releases := req.releases;
  }
}
