/**
 The init gate: init goroutines and any number of requests share one atomic
 phase, one mutex-guarded channel reference and the channels themselves. Every
 atomic action is one event, so a list of events is one interleaving.

 Channel 0 is the one New closes before the server is used; the k-th startInit
 makes channel k + 1.
 */
module InitGate {
  import opened Text

  datatype Phase = Ready | Pending | Failed

  /** The state every goroutine shares. `closes` lists the closed channels, in order. */
  datatype Gate = Gate(phase: Phase, doneRef: nat, closes: seq<nat>)

  datatype InitPc =
    | Made           // startInit has made its channel
    | Swapped        // ... and put it into initDone, under the lock
    | Running        // ... and stored pending
    | HookDone       // the Init hook returned nil
    | Succeeded      // the sidecar booted as well
    | Erred          // the hook or the sidecar returned an error
    | StoredReady
    | StoredFailed
    | Closed         // the channel is closed and the gate work is finished

  datatype InitRun = InitRun(pc: InitPc, hookOk: bool, sidecarOk: bool)

  datatype InitAct = SwapChannel | StorePending | Hook(ok: bool) | Sidecar(ok: bool) | StoreOutcome | CloseChannel

  datatype ReqPc =
    | Arrived
    | SawPending             // first load read pending
    | Parked(ch: nat)        // waiting on this channel
    | Woken(ch: nat)         // the channel was closed; the second load is next
    | Handling               // s.handle
    | InitError              // 500
    | InitTimeout            // 503
    | Gone                   // request context done

  datatype Request = Request(pc: ReqPc, viaPending: bool)

  datatype ReqAct = FirstLoad | TakeChannel | Wake | SecondLoad | TimeOut | Disconnect

  datatype State = State(gate: Gate, inits: seq<InitRun>, reqs: seq<Request>)

  datatype Event = StartInit | Init(k: nat, act: InitAct) | Arrive | Serve(r: nat, step: ReqAct)

  /** New: ready, with channel 0 in place and already closed. */
  const INITIAL := State(Gate(Ready, 0, [0]), [], [])

  // ------------------------------------------------------------------- steps

  /** startInit, then runInitAsync (or Init): the program order of one init goroutine. */
  function InitNext(i: InitRun, act: InitAct): Option<InitRun> {
    match act
    case SwapChannel => if i.pc == Made then Some(i.(pc := Swapped)) else None
    case StorePending => if i.pc == Swapped then Some(i.(pc := Running)) else None
    case Hook(ok) =>
      if i.pc == Running then Some(InitRun(if ok then HookDone else Erred, ok, i.sidecarOk)) else None
    case Sidecar(ok) =>
      if i.pc == HookDone then Some(InitRun(if ok then Succeeded else Erred, i.hookOk, ok)) else None
    case StoreOutcome =>
      if i.pc == Succeeded then Some(i.(pc := StoredReady))
      else if i.pc == Erred then Some(i.(pc := StoredFailed))
      else None
    case CloseChannel => if i.pc == StoredReady || i.pc == StoredFailed then Some(i.(pc := Closed)) else None
  }

  /** The effect of that action on the shared gate, for the k-th init. */
  function InitEffect(g: Gate, k: nat, i: InitRun, act: InitAct): Gate {
    match act
    case SwapChannel => g.(doneRef := k + 1)
    case StorePending => g.(phase := Pending)
    case StoreOutcome => g.(phase := if i.pc == Succeeded then Ready else Failed)
    case CloseChannel => g.(closes := g.closes + [k + 1])
    case _ => g
  }

  /** ServeHTTP: requests only read the gate. */
  function ReqNext(g: Gate, q: Request, act: ReqAct): Option<Request> {
    match act
    case FirstLoad =>
      if q.pc != Arrived then None
      else (match g.phase
        case Ready => Some(q.(pc := Handling))
        case Failed => Some(q.(pc := InitError))
        case Pending => Some(Request(SawPending, true)))
    case TakeChannel => if q.pc == SawPending then Some(q.(pc := Parked(g.doneRef))) else None
    case Wake => if q.pc.Parked? && q.pc.ch in g.closes then Some(q.(pc := Woken(q.pc.ch))) else None
    case SecondLoad =>
      if q.pc.Woken? then Some(q.(pc := if g.phase == Failed then InitError else Handling)) else None
    case TimeOut => if q.pc.Parked? then Some(q.(pc := InitTimeout)) else None
    case Disconnect => if q.pc.Parked? then Some(q.(pc := Gone)) else None
  }

  function Step(s: State, e: Event): Option<State> {
    match e
    case StartInit => Some(s.(inits := s.inits + [InitRun(Made, false, false)]))
    case Arrive => Some(s.(reqs := s.reqs + [Request(Arrived, false)]))
    case Init(k, act) =>
      if k >= |s.inits| then None
      else (match InitNext(s.inits[k], act)
        case None => None
        case Some(i) => Some(State(InitEffect(s.gate, k, s.inits[k], act), s.inits[k := i], s.reqs)))
    case Serve(r, act) =>
      if r >= |s.reqs| then None
      else (match ReqNext(s.gate, s.reqs[r], act)
        case None => None
        case Some(q) => Some(s.(reqs := s.reqs[r := q])))
  }

  /** The state after an interleaving, or nothing when some event was not enabled. */
  function Run(es: seq<Event>): Option<State> {
    if |es| == 0 then Some(INITIAL)
    else match Run(es[..|es| - 1])
      case None => None
      case Some(s) => Step(s, es[|es| - 1])
  }

  // ------------------------------ channels: any number of inits, any interleaving

  function CloseCount(closes: seq<nat>, ch: nat): nat {
    if |closes| == 0 then 0
    else CloseCount(closes[..|closes| - 1], ch) + (if closes[|closes| - 1] == ch then 1 else 0)
  }

  lemma {:induction false} CloseCountZero(closes: seq<nat>, ch: nat)
    ensures ch !in closes <==> CloseCount(closes, ch) == 0
  {
    if |closes| > 0 {
      var n := |closes| - 1;
      CloseCountZero(closes[..n], ch);
      assert closes == closes[..n] + [closes[n]];
    }
  }

  lemma CloseCountAppend(closes: seq<nat>, ch: nat, c: nat)
    ensures CloseCount(closes + [ch], c) == CloseCount(closes, c) + if c == ch then 1 else 0
  {
    assert (closes + [ch])[..|closes|] == closes;
  }

  /** The k-th init has closed its own channel once if it is finished, and not at all before. */
  ghost predicate OwnChannel(closes: seq<nat>, k: nat, i: InitRun) {
    CloseCount(closes, k + 1) == if i.pc == Closed then 1 else 0
  }

  ghost predicate ClosesOnce(s: State) {
    && (forall k :: 0 <= k < |s.inits| ==> OwnChannel(s.gate.closes, k, s.inits[k]))
    && CloseCount(s.gate.closes, 0) == 1
    && (forall c :: c in s.gate.closes ==> c <= |s.inits|)
    && s.gate.doneRef <= |s.inits|
  }

  lemma ActCount(n: nat, i: InitRun, act: InitAct)
    requires n == (if i.pc == Closed then 1 else 0) && InitNext(i, act).Some?
    ensures n + (if act == CloseChannel then 1 else 0) == if InitNext(i, act).value.pc == Closed then 1 else 0
  {
  }

  lemma ClosesOnceAct(s: State, k: nat, act: InitAct)
    requires ClosesOnce(s) && Step(s, Init(k, act)).Some?
    ensures ClosesOnce(Step(s, Init(k, act)).value)
  {
    var closes, t := s.gate.closes, Step(s, Init(k, act)).value;
    assert OwnChannel(closes, k, s.inits[k]);
    ActCount(CloseCount(closes, k + 1), s.inits[k], act);
    if act == CloseChannel {
      CloseCountAppend(closes, k + 1, 0);
      forall j | 0 <= j < |s.inits|
        ensures OwnChannel(closes + [k + 1], j, t.inits[j])
      {
        assert OwnChannel(closes, j, s.inits[j]);
        CloseCountAppend(closes, k + 1, j + 1);
      }
    } else {
      assert t.gate.closes == closes;
    }
  }

  lemma ClosesOnceStep(s: State, e: Event)
    requires ClosesOnce(s) && Step(s, e).Some?
    ensures ClosesOnce(Step(s, e).value)
  {
    match e
    case StartInit => CloseCountZero(s.gate.closes, |s.inits| + 1);
    case Init(k, act) => ClosesOnceAct(s, k, act);
    case _ =>
  }

  lemma {:induction false} ClosesOnceAlways(es: seq<Event>)
    requires Run(es).Some?
    ensures ClosesOnce(Run(es).value)
  {
    if |es| > 0 {
      ClosesOnceAlways(es[..|es| - 1]);
      ClosesOnceStep(Run(es[..|es| - 1]).value, es[|es| - 1]);
    }
  }

  /**
   No interleaving closes a channel twice (which would panic), whatever the number of inits: the
   channel of New, that of a finished init and no other has been closed, once.
   */
  lemma EveryChannelClosedAtMostOnce(es: seq<Event>, ch: nat)
    requires Run(es).Some?
    ensures var s := Run(es).value;
      CloseCount(s.gate.closes, ch)
      == if ch == 0 || (ch <= |s.inits| && s.inits[ch - 1].pc == Closed) then 1 else 0
  {
    ClosesOnceAlways(es);
    var s := Run(es).value;
    if 1 <= ch <= |s.inits| {
      assert OwnChannel(s.gate.closes, ch - 1, s.inits[ch - 1]);
    } else if ch > |s.inits| {
      CloseCountZero(s.gate.closes, ch);
    }
  }

  // ------------------------------------------------------------- one init run

  /** What one init's program counter says about its outcome and the shared gate. */
  predicate InitOk(g: Gate, i: InitRun) {
    match i.pc
    case Made => g == Gate(Ready, 0, [0]) && !i.hookOk && !i.sidecarOk
    case Swapped => g == Gate(Ready, 1, [0]) && !i.hookOk && !i.sidecarOk
    case Running => g == Gate(Pending, 1, [0]) && !i.hookOk && !i.sidecarOk
    case HookDone => g == Gate(Pending, 1, [0]) && i.hookOk && !i.sidecarOk
    case Succeeded => g == Gate(Pending, 1, [0]) && i.hookOk && i.sidecarOk
    case Erred => g == Gate(Pending, 1, [0]) && !i.sidecarOk
    case StoredReady => g == Gate(Ready, 1, [0]) && i.hookOk && i.sidecarOk
    case StoredFailed => g == Gate(Failed, 1, [0]) && !i.sidecarOk
    case Closed => g == Gate(if i.hookOk && i.sidecarOk then Ready else Failed, 1, [0, 1])
  }

  /** What is known of a request, given the one init run. */
  predicate RequestOk(i: InitRun, q: Request) {
    match q.pc
    case Arrived => !q.viaPending
    case SawPending => q.viaPending && i.pc != Made && i.pc != Swapped
    case Parked(ch) => q.viaPending && ch == 1 && i.pc != Made && i.pc != Swapped
    case Woken(ch) => q.viaPending && ch == 1 && i.pc == Closed
    case Handling => q.viaPending ==> i.pc == Closed && i.hookOk && i.sidecarOk
    case InitError => i.pc == StoredFailed || (i.pc == Closed && !(i.hookOk && i.sidecarOk))
    case _ => q.viaPending
  }

  /** Before startInit every request goes straight through. */
  predicate EarlyRequest(q: Request) {
    !q.viaPending && (q.pc == Arrived || q.pc == Handling)
  }

  ghost predicate SingleInit(s: State) {
    if |s.inits| == 0 then
      s.gate == INITIAL.gate && forall r :: 0 <= r < |s.reqs| ==> EarlyRequest(s.reqs[r])
    else
      && |s.inits| == 1
      && InitOk(s.gate, s.inits[0])
      && forall r :: 0 <= r < |s.reqs| ==> RequestOk(s.inits[0], s.reqs[r])
  }

  lemma InitKeeps(g: Gate, i: InitRun, act: InitAct)
    requires InitOk(g, i) && InitNext(i, act).Some?
    ensures InitOk(InitEffect(g, 0, i, act), InitNext(i, act).value)
  {
    assert [0] + [1] == [0, 1];
  }

  lemma InitKeepsRequest(g: Gate, i: InitRun, act: InitAct, q: Request)
    requires InitOk(g, i) && InitNext(i, act).Some? && RequestOk(i, q)
    ensures RequestOk(InitNext(i, act).value, q)
  {
  }

  lemma RequestKeeps(g: Gate, i: InitRun, q: Request, act: ReqAct)
    requires InitOk(g, i) && RequestOk(i, q) && ReqNext(g, q, act).Some?
    ensures RequestOk(i, ReqNext(g, q, act).value)
  {
  }

  lemma SingleInitAct(s: State, k: nat, act: InitAct)
    requires SingleInit(s) && Step(s, Init(k, act)).Some?
    ensures SingleInit(Step(s, Init(k, act)).value)
  {
    var i := s.inits[0];
    InitKeeps(s.gate, i, act);
    forall r | 0 <= r < |s.reqs|
      ensures RequestOk(InitNext(i, act).value, s.reqs[r])
    {
      InitKeepsRequest(s.gate, i, act, s.reqs[r]);
    }
  }

  lemma SingleInitServe(s: State, r: nat, act: ReqAct)
    requires SingleInit(s) && Step(s, Serve(r, act)).Some?
    ensures SingleInit(Step(s, Serve(r, act)).value)
  {
    if |s.inits| == 1 {
      RequestKeeps(s.gate, s.inits[0], s.reqs[r], act);
    } else {
      assert EarlyRequest(s.reqs[r]);
    }
  }

  lemma SingleInitStart(s: State)
    requires SingleInit(s) && s.inits == []
    ensures SingleInit(Step(s, StartInit).value)
  {
    forall r | 0 <= r < |s.reqs|
      ensures RequestOk(InitRun(Made, false, false), s.reqs[r])
    {
      assert EarlyRequest(s.reqs[r]);
    }
  }

  /** Every atomic step keeps what is known with one init. */
  lemma SingleInitStep(s: State, e: Event)
    requires SingleInit(s) && Step(s, e).Some? && |Step(s, e).value.inits| <= 1
    ensures SingleInit(Step(s, e).value)
  {
    match e
    case Init(k, act) => SingleInitAct(s, k, act);
    case Serve(r, act) => SingleInitServe(s, r, act);
    case StartInit => SingleInitStart(s);
    case Arrive =>
  }

  lemma {:induction false} SingleInitAlways(es: seq<Event>)
    requires Run(es).Some? && |Run(es).value.inits| <= 1
    ensures SingleInit(Run(es).value)
  {
    if |es| > 0 {
      SingleInitAlways(es[..|es| - 1]);
      SingleInitStep(Run(es[..|es| - 1]).value, es[|es| - 1]);
    }
  }

  /**
   Safety of one init against any number of requests, over every interleaving:
   a request that read pending only ever waits on the fresh channel; that channel is
   closed only after the phase left pending; such a request reaches handle only
   if the hook and the sidecar both succeeded; and a 500 is answered only after a failure.
   */
  lemma OneInitIsSafe(es: seq<Event>, r: nat)
    requires Run(es).Some? && |Run(es).value.inits| <= 1 && r < |Run(es).value.reqs|
    ensures var s := Run(es).value; var q := s.reqs[r];
      && (q.pc.Parked? || q.pc.Woken? ==> q.pc.ch == 1 && |s.inits| == 1)
      && (1 in s.gate.closes ==> s.gate.phase != Pending)
      && (q.pc == Handling && q.viaPending ==> |s.inits| == 1 && s.inits[0].hookOk && s.inits[0].sidecarOk)
      && (q.pc == InitError ==> |s.inits| == 1 && s.gate.phase == Failed)
  {
    SingleInitAlways(es);
  }

  /** No lost wake-up: once the init is finished every parked request can be woken. */
  lemma ParkedRequestsWake(es: seq<Event>, r: nat)
    requires Run(es).Some? && |Run(es).value.inits| <= 1 && r < |Run(es).value.reqs|
    requires Run(es).value.reqs[r].pc.Parked? && Run(es).value.inits != [] && Run(es).value.inits[0].pc == Closed
    ensures Run(es + [Serve(r, Wake)]).Some?
    ensures Run(es + [Serve(r, Wake), Serve(r, SecondLoad)]).Some?
    ensures var i := Run(es).value.inits[0];
      Run(es + [Serve(r, Wake), Serve(r, SecondLoad)]).value.reqs[r].pc
      == if i.hookOk && i.sidecarOk then Handling else InitError
  {
    SingleInitAlways(es);
    var es1, es2 := es + [Serve(r, Wake)], es + [Serve(r, Wake), Serve(r, SecondLoad)];
    assert es1[..|es1| - 1] == es;
    assert es2[..|es2| - 1] == es1;
  }

  // ------------------------------------------- requests that come after the outcome

  /** The outcome of the one init is stored, and this is the phase it stored. */
  predicate Settled(s: State, phase: Phase) {
    && |s.inits| == 1
    && s.gate.phase == phase
    && (s.inits[0].pc == StoredReady || s.inits[0].pc == StoredFailed || s.inits[0].pc == Closed)
  }

  /** The request has not come, has not looked at the phase, or has this answer. */
  predicate AnsweredBy(s: State, r: nat, answer: ReqPc) {
    r < |s.reqs| ==> s.reqs[r].pc == Arrived || s.reqs[r].pc == answer
  }

  function AnswerOf(phase: Phase): ReqPc {
    if phase == Failed then InitError else Handling
  }

  lemma SettledStep(s: State, e: Event, r: nat, phase: Phase)
    requires Settled(s, phase) && phase != Pending && AnsweredBy(s, r, AnswerOf(phase))
    requires Step(s, e).Some? && |Step(s, e).value.inits| <= 1
    ensures Settled(Step(s, e).value, phase) && AnsweredBy(Step(s, e).value, r, AnswerOf(phase))
  {
  }

  lemma RunMore(es: seq<Event>, more: seq<Event>)
    requires |more| > 0 && Run(es + more).Some?
    ensures Run(es + more[..|more| - 1]).Some?
    ensures Run(es + more) == Step(Run(es + more[..|more| - 1]).value, more[|more| - 1])
    ensures |Run(es + more[..|more| - 1]).value.inits| <= |Run(es + more).value.inits|
  {
    assert (es + more)[..|es + more| - 1] == es + more[..|more| - 1];
  }

  lemma {:induction false} SettledAlways(es: seq<Event>, more: seq<Event>, r: nat, phase: Phase)
    requires Run(es).Some? && Settled(Run(es).value, phase) && phase != Pending
    requires AnsweredBy(Run(es).value, r, AnswerOf(phase))
    requires Run(es + more).Some? && |Run(es + more).value.inits| <= 1
    ensures Settled(Run(es + more).value, phase) && AnsweredBy(Run(es + more).value, r, AnswerOf(phase))
  {
    if |more| == 0 {
      assert es + more == es;
    } else {
      var before := more[..|more| - 1];
      RunMore(es, more);
      SettledAlways(es, before, r, phase);
      SettledStep(Run(es + before).value, more[|more| - 1], r, phase);
    }
  }

  /**
   Once the one init has stored its outcome, a request that comes then, or has not looked yet, is
   answered with 500 after a failure and handled after a success, in every continuation.
   */
  lemma OutcomeDecides(es: seq<Event>, more: seq<Event>, r: nat)
    requires Run(es).Some? && Run(es).value.inits != [] && Run(es).value.gate.phase != Pending
    requires Run(es).value.inits[0].pc != Made && Run(es).value.inits[0].pc != Swapped
    requires r < |Run(es).value.reqs| ==> Run(es).value.reqs[r].pc == Arrived
    requires Run(es + more).Some? && |Run(es + more).value.inits| <= 1
    ensures |Run(es + more).value.inits| == 1
    ensures var s := Run(es + more).value;
      && (s.inits[0].hookOk && s.inits[0].sidecarOk <==> Run(es).value.gate.phase == Ready)
      && (r < |s.reqs| ==>
            s.reqs[r].pc == Arrived
            || s.reqs[r].pc == if s.inits[0].hookOk && s.inits[0].sidecarOk then Handling else InitError)
  {
    PrefixInits(es, more);
    SingleInitAlways(es);
    PhaseTells(Run(es).value);
    SettledAlways(es, more, r, Run(es).value.gate.phase);
    SingleInitAlways(es + more);
    PhaseTells(Run(es + more).value);
  }

  lemma {:induction false} PrefixInits(es: seq<Event>, more: seq<Event>)
    requires Run(es).Some? && Run(es + more).Some?
    ensures |Run(es).value.inits| <= |Run(es + more).value.inits|
  {
    if |more| == 0 {
      assert es + more == es;
    } else {
      RunMore(es, more);
      PrefixInits(es, more[..|more| - 1]);
    }
  }

  /** The one init has pended, and this request is not handled before it succeeded. */
  predicate Guarded(s: State, r: nat) {
    && |s.inits| == 1
    && HasPended(s.inits[0])
    && (r < |s.reqs| && s.reqs[r].pc == Handling ==> s.gate.phase == Ready)
  }

  lemma GuardedStep(s: State, e: Event, r: nat)
    requires SingleInit(s) && Guarded(s, r) && Step(s, e).Some? && |Step(s, e).value.inits| <= 1
    ensures Guarded(Step(s, e).value, r)
  {
    match e
    case Init(k, act) => assert InitOk(s.gate, s.inits[0]);
    case Serve(q, act) => assert RequestOk(s.inits[0], s.reqs[q]);
    case _ =>
  }

  lemma {:induction false} GuardedAlways(es: seq<Event>, more: seq<Event>, r: nat)
    requires Run(es).Some? && Guarded(Run(es).value, r)
    requires Run(es + more).Some? && |Run(es + more).value.inits| <= 1
    ensures Guarded(Run(es + more).value, r)
  {
    if |more| == 0 {
      assert es + more == es;
    } else {
      var before := more[..|more| - 1];
      RunMore(es, more);
      GuardedAlways(es, before, r);
      SingleInitAlways(es + before);
      GuardedStep(Run(es + before).value, more[|more| - 1], r);
    }
  }

  /**
   From the moment the one init has stored pending, no request that is not being handled yet is
   handled, in any continuation, unless the hook and the sidecar both succeeded.
   */
  lemma NobodySlipsThrough(es: seq<Event>, more: seq<Event>, r: nat)
    requires Run(es).Some? && Run(es).value.inits != [] && HasPended(Run(es).value.inits[0])
    requires r < |Run(es).value.reqs| ==> Run(es).value.reqs[r].pc != Handling
    requires Run(es + more).Some? && |Run(es + more).value.inits| <= 1
    ensures |Run(es + more).value.inits| == 1
    ensures var s := Run(es + more).value;
      r < |s.reqs| && s.reqs[r].pc == Handling ==> s.inits[0].hookOk && s.inits[0].sidecarOk
  {
    PrefixInits(es, more);
    GuardedAlways(es, more, r);
    SingleInitAlways(es + more);
    PhaseTells(Run(es + more).value);
  }

  lemma PhaseTells(s: State)
    requires SingleInit(s) && |s.inits| == 1 && HasPended(s.inits[0])
    ensures s.gate.phase == Ready ==> s.inits[0].hookOk && s.inits[0].sidecarOk
    ensures s.gate.phase == Failed ==> !(s.inits[0].hookOk && s.inits[0].sidecarOk)
    ensures s.gate.phase != Pending ==> Settled(s, s.gate.phase)
  {
  }

  // --------------------------------------------------- what each answer comes from

  predicate Answered(pc: ReqPc) {
    pc == Handling || pc == InitError || pc == InitTimeout || pc == Gone
  }

  lemma AnswerStays(s: State, e: Event, r: nat)
    requires r < |s.reqs| && Answered(s.reqs[r].pc) && Step(s, e).Some?
    ensures r < |Step(s, e).value.reqs| && Step(s, e).value.reqs[r] == s.reqs[r]
  {
  }

  /** An answered request is never answered again, whatever else happens. */
  lemma {:induction false} AnsweredForGood(es: seq<Event>, more: seq<Event>, r: nat)
    requires Run(es).Some? && r < |Run(es).value.reqs| && Answered(Run(es).value.reqs[r].pc)
    requires Run(es + more).Some?
    ensures r < |Run(es + more).value.reqs| && Run(es + more).value.reqs[r] == Run(es).value.reqs[r]
  {
    if |more| == 0 {
      assert es + more == es;
    } else {
      var before := more[..|more| - 1];
      RunMore(es, more);
      AnsweredForGood(es, before, r);
      AnswerStays(Run(es + before).value, more[|more| - 1], r);
    }
  }

  /** The way out of the wait that is not the channel. */
  function GivenUp(act: ReqAct): ReqPc
    requires act == TimeOut || act == Disconnect
  {
    if act == TimeOut then InitTimeout else Gone
  }

  lemma GiveUpStep(s: State, e: Event, r: nat, act: ReqAct)
    requires (act == TimeOut || act == Disconnect) && Step(s, e).Some?
    ensures var t := Step(s, e).value;
      r < |t.reqs| && t.reqs[r].pc == GivenUp(act)
      <==> (r < |s.reqs| && s.reqs[r].pc == GivenUp(act)) || e == Serve(r, act)
  {
  }

  /** 503 is answered exactly to the requests whose wait timed out, and none to those that disconnected. */
  lemma {:induction false} GivenUpExactly(es: seq<Event>, r: nat, act: ReqAct)
    requires (act == TimeOut || act == Disconnect) && Run(es).Some?
    ensures r < |Run(es).value.reqs| && Run(es).value.reqs[r].pc == (if act == TimeOut then InitTimeout else Gone)
       <==> Serve(r, act) in es
  {
    if |es| > 0 {
      var before := es[..|es| - 1];
      GivenUpExactly(before, r, act);
      GiveUpStep(Run(before).value, es[|es| - 1], r, act);
      assert es == before + [es[|es| - 1]];
    }
  }

  // ------------------------------------------------------------ several inits

  predicate Succeeds(i: InitRun) {
    i.hookOk && i.sidecarOk
  }

  predicate HasPended(i: InitRun) {
    i.pc != Made && i.pc != Swapped
  }

  /** Some init has finished its hook and its sidecar without error. */
  ghost predicate SomeInitSucceeded(s: State) {
    exists k :: 0 <= k < |s.inits| && Succeeds(s.inits[k])
  }

  ghost predicate SomeInitPending(s: State) {
    exists k :: 0 <= k < |s.inits| && HasPended(s.inits[k])
  }

  predicate OutcomeRecorded(i: InitRun) {
    && (i.pc == HookDone || i.pc == Succeeded ==> i.hookOk)
    && (i.pc == Succeeded ==> i.sidecarOk)
    && (i.pc == Made || i.pc == Swapped || i.pc == Running ==> !i.hookOk && !i.sidecarOk)
    && (i.pc == HookDone ==> !i.sidecarOk)
  }

  predicate WaitsForInit(pc: ReqPc) {
    pc == SawPending || pc.Parked? || pc.Woken?
  }

  /** A request waits only after it read pending. */
  predicate WaitsRightly(q: Request) {
    WaitsForInit(q.pc) ==> q.viaPending
  }

  /** Once some init has stored pending, ready can only come from an init that succeeded. */
  ghost predicate ReadyIsEarned(s: State) {
    && (forall k :: 0 <= k < |s.inits| ==> OutcomeRecorded(s.inits[k]))
    && (SomeInitPending(s) && s.gate.phase == Ready ==> SomeInitSucceeded(s))
    && (s.gate.phase == Pending ==> SomeInitPending(s))
    && (forall r :: 0 <= r < |s.reqs| && s.reqs[r].viaPending ==> SomeInitPending(s))
    && (forall r :: 0 <= r < |s.reqs| ==> WaitsRightly(s.reqs[r]))
  }

  /** What one action does to its init and the phase. */
  lemma ActRecorded(g: Gate, k: nat, i: InitRun, act: InitAct)
    requires OutcomeRecorded(i) && InitNext(i, act).Some?
    ensures var j, h := InitNext(i, act).value, InitEffect(g, k, i, act);
      && OutcomeRecorded(j)
      && (HasPended(i) ==> HasPended(j))
      && (Succeeds(i) ==> Succeeds(j))
      && (h.phase != g.phase && h.phase == Ready ==> Succeeds(j))
      && (HasPended(j) && !HasPended(i) ==> h.phase == Pending)
      && (h.phase == Pending && g.phase != Pending ==> HasPended(j))
  {
  }

  /** Inits that have pended or succeeded stay so. */
  lemma InitsStay(s: State, t: State, k: nat, j: InitRun)
    requires k < |s.inits| && t.inits == s.inits[k := j]
    requires (HasPended(s.inits[k]) ==> HasPended(j)) && (Succeeds(s.inits[k]) ==> Succeeds(j))
    ensures SomeInitPending(s) ==> SomeInitPending(t)
    ensures SomeInitSucceeded(s) ==> SomeInitSucceeded(t)
    ensures HasPended(j) ==> SomeInitPending(t)
    ensures Succeeds(j) ==> SomeInitSucceeded(t)
    ensures SomeInitPending(t) ==> SomeInitPending(s) || (HasPended(j) && !HasPended(s.inits[k]))
  {
    assert t.inits[k] == j;
    if n :| 0 <= n < |s.inits| && HasPended(s.inits[n]) {
      assert HasPended(t.inits[n]);
    }
    if n :| 0 <= n < |s.inits| && Succeeds(s.inits[n]) {
      assert Succeeds(t.inits[n]);
    }
    if n :| 0 <= n < |t.inits| && HasPended(t.inits[n]) {
      assert n != k ==> HasPended(s.inits[n]);
    }
  }

  lemma EarnedAct(s: State, k: nat, act: InitAct)
    requires ReadyIsEarned(s) && Step(s, Init(k, act)).Some?
    ensures ReadyIsEarned(Step(s, Init(k, act)).value)
  {
    var t, j := Step(s, Init(k, act)).value, InitNext(s.inits[k], act).value;
    ActRecorded(s.gate, k, s.inits[k], act);
    InitsStay(s, t, k, j);
  }

  lemma EarnedServe(s: State, r: nat, act: ReqAct)
    requires ReadyIsEarned(s) && Step(s, Serve(r, act)).Some?
    ensures ReadyIsEarned(Step(s, Serve(r, act)).value)
  {
    var t, q := Step(s, Serve(r, act)).value, s.reqs[r];
    assert WaitsRightly(q);
    assert t.inits == s.inits && WaitsRightly(t.reqs[r]);
    assert SomeInitPending(t) <==> SomeInitPending(s);
    assert SomeInitSucceeded(t) <==> SomeInitSucceeded(s);
  }

  lemma EarnedStart(s: State)
    requires ReadyIsEarned(s)
    ensures ReadyIsEarned(Step(s, StartInit).value)
  {
    var t := Step(s, StartInit).value;
    assert forall k :: 0 <= k < |s.inits| ==> t.inits[k] == s.inits[k];
    assert !HasPended(t.inits[|s.inits|]);
    if n :| 0 <= n < |s.inits| && HasPended(s.inits[n]) {
      assert HasPended(t.inits[n]);
    }
    if n :| 0 <= n < |s.inits| && Succeeds(s.inits[n]) {
      assert Succeeds(t.inits[n]);
    }
  }

  lemma EarnedArrive(s: State)
    requires ReadyIsEarned(s)
    ensures ReadyIsEarned(Step(s, Arrive).value)
  {
    var t := Step(s, Arrive).value;
    assert t.inits == s.inits;
    assert SomeInitPending(t) <==> SomeInitPending(s);
    assert SomeInitSucceeded(t) <==> SomeInitSucceeded(s);
  }

  lemma ReadyIsEarnedStep(s: State, e: Event)
    requires ReadyIsEarned(s) && Step(s, e).Some?
    ensures ReadyIsEarned(Step(s, e).value)
  {
    match e
    case Init(k, act) => EarnedAct(s, k, act);
    case Serve(r, act) => EarnedServe(s, r, act);
    case StartInit => EarnedStart(s);
    case Arrive => EarnedArrive(s);
  }

  lemma {:induction false} ReadyIsEarnedAlways(es: seq<Event>)
    requires Run(es).Some?
    ensures ReadyIsEarned(Run(es).value)
  {
    if |es| > 0 {
      ReadyIsEarnedAlways(es[..|es| - 1]);
      ReadyIsEarnedStep(Run(es[..|es| - 1]).value, es[|es| - 1]);
    }
  }

  /**
   For any number of inits: when no init has succeeded, a woken request is let through
   exactly when its second load reads pending, and that takes a second init.
   */
  lemma LetThroughNeedsASecondInit(es: seq<Event>, r: nat)
    requires Run(es).Some? && r < |Run(es).value.reqs| && Run(es).value.reqs[r].pc.Woken?
    requires !SomeInitSucceeded(Run(es).value)
    ensures var s := Run(es).value;
      && Step(s, Serve(r, SecondLoad)).Some?
      && (Step(s, Serve(r, SecondLoad)).value.reqs[r].pc == Handling <==> s.gate.phase == Pending)
      && (s.gate.phase == Pending ==> |s.inits| >= 2)
  {
    ReadyIsEarnedAlways(es);
    if |Run(es).value.inits| <= 1 {
      SingleInitAlways(es);
    }
  }

  predicate Matches(s: State, t: State) {
    && s.gate.phase == t.gate.phase
    && s.gate.doneRef == t.gate.doneRef
    && s.gate.closes == t.gate.closes
    && s.inits == t.inits
    && s.reqs == t.reqs
  }

  /** One more event. */
  lemma Then(es: seq<Event>, e: Event, s: State, t: State) returns (es': seq<Event>)
    requires Run(es) == Some(s) && Step(s, e).Some? && Matches(Step(s, e).value, t)
    ensures Run(es') == Some(t)
  {
    es' := es + [e];
    assert es'[..|es|] == es;
  }

  lemma ThenInit(es: seq<Event>, s: State, k: nat, act: InitAct, t: State) returns (es': seq<Event>)
    requires Run(es) == Some(s) && k < |s.inits| && InitNext(s.inits[k], act).Some?
    requires t.gate == InitEffect(s.gate, k, s.inits[k], act) && t.reqs == s.reqs
    requires t.inits == s.inits[k := InitNext(s.inits[k], act).value]
    ensures Run(es') == Some(t)
  {
    es' := Then(es, Init(k, act), s, t);
  }

  lemma ThenServe(es: seq<Event>, s: State, act: ReqAct, q: Request) returns (es': seq<Event>)
    requires Run(es) == Some(s) && |s.reqs| == 1 && ReqNext(s.gate, s.reqs[0], act) == Some(q)
    ensures Run(es') == Some(s.(reqs := [q]))
  {
    assert s.reqs[0 := q] == [q];
    es' := Then(es, Serve(0, act), s, s.(reqs := [q]));
  }

  lemma RunEmpty()
    ensures Run([]) == Some(INITIAL)
  {
  }

  function Lone(pc: InitPc): seq<InitRun> {
    [InitRun(pc, false, false)]
  }

  /** One init has stored pending. */
  lemma InitPends() returns (es: seq<Event>)
    ensures Run(es) == Some(State(Gate(Pending, 1, [0]), Lone(Running), []))
  {
    RunEmpty();
    assert [] + Lone(Made) == Lone(Made);
    es := Then([], StartInit, INITIAL, State(Gate(Ready, 0, [0]), Lone(Made), []));
    assert Lone(Made)[0 := InitRun(Swapped, false, false)] == Lone(Swapped);
    es := ThenInit(es, State(Gate(Ready, 0, [0]), Lone(Made), []), 0, SwapChannel,
                   State(Gate(Ready, 1, [0]), Lone(Swapped), []));
    assert Lone(Swapped)[0 := InitRun(Running, false, false)] == Lone(Running);
    es := ThenInit(es, State(Gate(Ready, 1, [0]), Lone(Swapped), []), 0, StorePending,
                   State(Gate(Pending, 1, [0]), Lone(Running), []));
  }

  /** A request parks on its channel. */
  lemma RequestParks() returns (es: seq<Event>)
    ensures Run(es) == Some(State(Gate(Pending, 1, [0]), Lone(Running), [Request(Parked(1), true)]))
  {
    es := InitPends();
    var s := State(Gate(Pending, 1, [0]), Lone(Running), []);
    assert [] + [Request(Arrived, false)] == [Request(Arrived, false)];
    es := Then(es, Arrive, s, s.(reqs := [Request(Arrived, false)]));
    es := ThenServe(es, s.(reqs := [Request(Arrived, false)]), FirstLoad, Request(SawPending, true));
    es := ThenServe(es, s.(reqs := [Request(SawPending, true)]), TakeChannel, Request(Parked(1), true));
  }

  /** The init fails and wakes it. */
  lemma FailedInitWakes() returns (es: seq<Event>)
    ensures Run(es) == Some(State(Gate(Failed, 1, [0, 1]), Lone(Closed), [Request(Woken(1), true)]))
  {
    es := RequestParks();
    var parked := [Request(Parked(1), true)];
    assert Lone(Running)[0 := InitRun(Erred, false, false)] == Lone(Erred);
    es := ThenInit(es, State(Gate(Pending, 1, [0]), Lone(Running), parked), 0, Hook(false),
                   State(Gate(Pending, 1, [0]), Lone(Erred), parked));
    assert Lone(Erred)[0 := InitRun(StoredFailed, false, false)] == Lone(StoredFailed);
    es := ThenInit(es, State(Gate(Pending, 1, [0]), Lone(Erred), parked), 0, StoreOutcome,
                   State(Gate(Failed, 1, [0]), Lone(StoredFailed), parked));
    es := FailedInitCloses(es);
  }

  lemma FailedInitCloses(before: seq<Event>) returns (es: seq<Event>)
    requires Run(before) == Some(State(Gate(Failed, 1, [0]), Lone(StoredFailed), [Request(Parked(1), true)]))
    ensures Run(es) == Some(State(Gate(Failed, 1, [0, 1]), Lone(Closed), [Request(Woken(1), true)]))
  {
    var parked := [Request(Parked(1), true)];
    assert Lone(StoredFailed)[0 := InitRun(Closed, false, false)] == Lone(Closed) && [0] + [1] == [0, 1];
    es := ThenInit(before, State(Gate(Failed, 1, [0]), Lone(StoredFailed), parked), 0, CloseChannel,
                   State(Gate(Failed, 1, [0, 1]), Lone(Closed), parked));
    es := ThenServe(es, State(Gate(Failed, 1, [0, 1]), Lone(Closed), parked), Wake, Request(Woken(1), true));
  }

  function Second(pc: InitPc): seq<InitRun> {
    Lone(Closed) + [InitRun(pc, false, false)]
  }

  /** A second init starts and stores pending. */
  lemma SecondInitPends() returns (es: seq<Event>)
    ensures Run(es) == Some(State(Gate(Pending, 2, [0, 1]), Second(Running), [Request(Woken(1), true)]))
  {
    var woken := [Request(Woken(1), true)];
    es := FailedInitWakes();
    es := Then(es, StartInit, State(Gate(Failed, 1, [0, 1]), Lone(Closed), woken),
               State(Gate(Failed, 1, [0, 1]), Second(Made), woken));
    assert Second(Made)[1 := InitRun(Swapped, false, false)] == Second(Swapped);
    es := ThenInit(es, State(Gate(Failed, 1, [0, 1]), Second(Made), woken), 1, SwapChannel,
                   State(Gate(Failed, 2, [0, 1]), Second(Swapped), woken));
    assert Second(Swapped)[1 := InitRun(Running, false, false)] == Second(Running);
    es := ThenInit(es, State(Gate(Failed, 2, [0, 1]), Second(Swapped), woken), 1, StorePending,
                   State(Gate(Pending, 2, [0, 1]), Second(Running), woken));
  }

  /** A request that read pending is handled although no init has succeeded. */
  lemma SecondInitLetsARequestThrough() returns (es: seq<Event>)
    ensures Run(es).Some? && |Run(es).value.reqs| == 1
    ensures Run(es).value.reqs[0] == Request(Handling, true) && !SomeInitSucceeded(Run(es).value)
  {
    es := SecondInitPends();
    var s := State(Gate(Pending, 2, [0, 1]), Second(Running), [Request(Woken(1), true)]);
    es := ThenServe(es, s, SecondLoad, Request(Handling, true));
    assert forall k :: 0 <= k < 2 ==> !Succeeds(Second(Running)[k]);
  }
}
