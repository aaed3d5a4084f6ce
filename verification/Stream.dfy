/** The event stream of a debate (comprehensive/manager.go): the debate is executed and
    then replayed to a handler. */
module Stream {
  import opened Wrappers

  datatype AgentResponse = AgentResponse(agentID: string, role: string, content: string)

  datatype Phase = Phase(name: string, responses: seq<AgentResponse>)

  datatype Response = Response(id: string, phases: seq<Phase>)

  datatype Kind = Started | PhaseStarted | AgentSaid | PhaseCompleted | Completed | CancelledEvent | Failed

  /** The team of an event is the answering agent's role. */
  datatype Event = Event(
    kind: Kind, debateID: string, phase: string, agentID: string, team: string, content: string, progress: real)

  datatype Error = HandlerFailed(kind: Kind) | Cancelled | ExecuteFailed

  /** What the environment decides: whether the handler fails on its n-th event, whether
      the n-th look at the context finds it cancelled, the debate's response, and whether the
      error of a debate without one is what the context reports. */
  datatype World = World(
    fails: (nat, Event) -> bool, cancelled: nat -> bool, response: Option<Response>, contextStopped: bool)

  /** The error of a debate that gives no response. */
  function ExecuteError(w: World): Error {
    if w.contextStopped then Cancelled else ExecuteFailed
  }

  // ----- Progress -----

  function Clamp01(v: real): real {
    if v < 0.0 then 0.0 else if v > 1.0 then 1.0 else v
  }

  function PhaseProgress(phaseIndex: int, phaseCount: int, stepIndex: int, stepCount: int): real {
    if phaseCount <= 0 then 0.0 else
      var slice := 1.0 / phaseCount as real;
      var base := phaseIndex as real * slice;
      if stepCount <= 0 then Clamp01(base) else
        var frac := Clamp01(stepIndex as real / stepCount as real);
        Clamp01(base + frac * slice)
  }

  /** Place x of n equal slices, for x a real position in [0,n]. */
  function Place(x: real, n: int): real
    requires n > 0
  {
    x * (1.0 / n as real)
  }

  lemma PlaceBounds(x: real, y: real, n: int)
    requires n > 0 && 0.0 <= x <= y <= n as real
    ensures 0.0 <= Place(x, n) <= Place(y, n) <= 1.0
    ensures Place(0.0, n) == 0.0 && Place(n as real, n) == 1.0
  {
    var s := 1.0 / n as real;
    assert s > 0.0 && n as real * s == 1.0;
    assert (y - x) * s >= 0.0;
    assert (n as real - y) * s >= 0.0;
    assert x * s >= 0.0;
  }

  function Fraction(k: int, m: int): real
    requires m > 0
  {
    k as real / m as real
  }

  lemma FractionBounds(k: int, m: int)
    requires m > 0 && 0 <= k <= m
    ensures 0.0 <= Fraction(k, m) <= 1.0
    ensures Fraction(0, m) == 0.0 && Fraction(m, m) == 1.0
    ensures k < m ==> Fraction(k, m) <= Fraction(k + 1, m)
  {
  }

  /** Inside its range PhaseProgress is the place of phaseIndex + stepIndex/stepCount, so
      neither clamp ever changes a value. */
  lemma ProgressIsPlace(i: nat, n: nat, k: nat, m: nat)
    requires i < n && k <= m
    ensures PhaseProgress(i, n, k, m)
            == Place(if m == 0 then i as real else i as real + Fraction(k, m), n)
    ensures m == 0 || i as real <= i as real + Fraction(k, m) <= n as real
  {
    var s := 1.0 / n as real;
    if m == 0 {
      PlaceBounds(i as real, i as real, n);
    } else {
      FractionBounds(k, m);
      var f := Fraction(k, m);
      PlaceBounds(i as real, i as real + f, n);
      assert i as real * s + f * s == (i as real + f) * s;
    }
  }

  /** Progress never goes back: it grows with the steps of a phase, ends a phase where the
      next one begins, starts at 0 and reaches 1. */
  lemma ProgressMonotone(i: nat, n: nat, k: nat, m: nat)
    requires i < n && k <= m
    ensures 0.0 <= PhaseProgress(i, n, 0, 0) <= PhaseProgress(i, n, k, m) <= PhaseProgress(i, n, 1, 1) <= 1.0
    ensures k < m ==> PhaseProgress(i, n, k, m) <= PhaseProgress(i, n, k + 1, m)
    ensures m > 0 ==> PhaseProgress(i, n, 0, m) == PhaseProgress(i, n, 0, 0)
    ensures i + 1 < n ==> PhaseProgress(i, n, 1, 1) == PhaseProgress(i + 1, n, 0, 0)
    ensures PhaseProgress(0, n, 0, 0) == 0.0 && PhaseProgress(n - 1, n, 1, 1) == 1.0
  {
    hide PhaseProgress, Place, Fraction;
    ProgressIsPlace(i, n, 0, 0);
    ProgressIsPlace(i, n, k, m);
    ProgressIsPlace(i, n, 0, m);
    ProgressIsPlace(i, n, 1, 1);
    ProgressIsPlace(0, n, 0, 0);
    ProgressIsPlace(n - 1, n, 1, 1);
    FractionBounds(1, 1);
    var low, high := i as real, (i + 1) as real;
    PlaceBounds(low, high, n);
    PlaceBounds(0.0, n as real, n);
    if m > 0 {
      FractionBounds(k, m);
      PlaceBounds(low, low + Fraction(k, m), n);
      PlaceBounds(low + Fraction(k, m), high, n);
    }
    if k < m {
      ProgressIsPlace(i, n, k + 1, m);
      FractionBounds(k + 1, m);
      PlaceBounds(low + Fraction(k, m), low + Fraction(k + 1, m), n);
    }
    if i + 1 < n {
      ProgressIsPlace(i + 1, n, 0, 0);
    }
  }

  // ----- The canonical stream -----

  function StartedEvent(requestID: string): Event {
    Event(Started, requestID, "", "", "", "", 0.0)
  }

  function PhaseStartedEvent(resp: Response, i: nat): Event
    requires i < |resp.phases|
  {
    Event(PhaseStarted, resp.id, resp.phases[i].name, "", "", "", PhaseProgress(i, |resp.phases|, 0, 0))
  }

  function AgentEvent(resp: Response, i: nat, j: nat): Event
    requires i < |resp.phases| && j < |resp.phases[i].responses|
  {
    var phase := resp.phases[i];
    var ar := phase.responses[j];
    Event(AgentSaid, resp.id, phase.name, ar.agentID, ar.role, ar.content,
          PhaseProgress(i, |resp.phases|, j + 1, |phase.responses|))
  }

  function PhaseCompletedEvent(resp: Response, i: nat): Event
    requires i < |resp.phases|
  {
    Event(PhaseCompleted, resp.id, resp.phases[i].name, "", "", "", PhaseProgress(i, |resp.phases|, 1, 1))
  }

  function CompletedEvent(resp: Response): Event {
    Event(Completed, resp.id, "", "", "", "", 1.0)
  }

  function CancelledBetween(resp: Response, i: nat): Event
    requires i < |resp.phases|
  {
    Event(CancelledEvent, resp.id, "", "", "", "", PhaseProgress(i, |resp.phases|, 0, 0))
  }

  function CancelledInside(resp: Response, i: nat, j: nat): Event
    requires i < |resp.phases| && j < |resp.phases[i].responses|
  {
    var phase := resp.phases[i];
    Event(CancelledEvent, resp.id, phase.name, phase.responses[j].agentID, "", "",
          PhaseProgress(i, |resp.phases|, j, |phase.responses|))
  }

  /** The first j answers of phase i. */
  ghost function AgentEvents(resp: Response, i: nat, j: nat): seq<Event>
    requires i < |resp.phases| && j <= |resp.phases[i].responses|
  {
    if j == 0 then [] else AgentEvents(resp, i, j - 1) + [AgentEvent(resp, i, j - 1)]
  }

  /** The stream up to the point where phase i begins. */
  ghost function Before(requestID: string, resp: Response, i: nat): seq<Event>
    requires i <= |resp.phases|
    decreases i, 0
  {
    if i == 0 then [StartedEvent(requestID)]
    else Inside(requestID, resp, i - 1, |resp.phases[i - 1].responses|) + [PhaseCompletedEvent(resp, i - 1)]
  }

  /** The stream up to the point where agent j of phase i speaks. */
  ghost function Inside(requestID: string, resp: Response, i: nat, j: nat): seq<Event>
    requires i < |resp.phases| && j <= |resp.phases[i].responses|
    decreases i, 1
  {
    Before(requestID, resp, i) + [PhaseStartedEvent(resp, i)] + AgentEvents(resp, i, j)
  }

  /** started, then for each phase phase_started, agent_response*, phase_completed, then completed. */
  ghost function Canonical(requestID: string, resp: Response): seq<Event> {
    Before(requestID, resp, |resp.phases|) + [CompletedEvent(resp)]
  }

  // Which look at the context is which, once the debate has been executed.

  ghost function Spoken(resp: Response, i: nat): nat
    requires i <= |resp.phases|
  {
    if i == 0 then 0 else Spoken(resp, i - 1) + |resp.phases[i - 1].responses|
  }

  ghost function PhaseCheck(resp: Response, i: nat): nat
    requires i <= |resp.phases|
  {
    1 + i + Spoken(resp, i)
  }

  ghost function AgentCheck(resp: Response, i: nat, j: nat): nat
    requires i < |resp.phases|
  {
    PhaseCheck(resp, i) + 1 + j
  }

  // ----- What StreamDebate promises -----

  /** The handler accepted each of the first n events. */
  ghost predicate Accepted(w: World, trace: seq<Event>, n: nat)
    requires n <= |trace|
  {
    forall k :: 0 <= k < n ==> !w.fails(k, trace[k])
  }

  /** Looks 1 to t-1 found the context alive. */
  ghost predicate AliveUntil(w: World, t: nat) {
    forall k: nat :: 1 <= k < t ==> !w.cancelled(k)
  }

  /** The trace ends with phase_started or an answer of a phase. */
  ghost predicate EndsInside(requestID: string, w: World, resp: Response, trace: seq<Event>, i: nat, j: nat) {
    && i < |resp.phases| && j <= |resp.phases[i].responses|
    && trace == Inside(requestID, resp, i, j) && AliveUntil(w, AgentCheck(resp, i, j))
  }

  /** The trace ends with phase_completed. */
  ghost predicate EndsPhase(requestID: string, w: World, resp: Response, trace: seq<Event>, i: nat) {
    && i < |resp.phases| && trace == Before(requestID, resp, i + 1) && AliveUntil(w, PhaseCheck(resp, i + 1))
  }

  ghost predicate EndsCompleted(requestID: string, w: World, resp: Response, trace: seq<Event>) {
    trace == Canonical(requestID, resp) && AliveUntil(w, PhaseCheck(resp, |resp.phases|))
  }

  ghost predicate WasCancelledBetween(requestID: string, w: World, resp: Response, trace: seq<Event>, i: nat) {
    && i < |resp.phases| && w.cancelled(PhaseCheck(resp, i)) && AliveUntil(w, PhaseCheck(resp, i))
    && trace == Before(requestID, resp, i) + [CancelledBetween(resp, i)]
  }

  ghost predicate WasCancelledInside(requestID: string, w: World, resp: Response, trace: seq<Event>, i: nat, j: nat) {
    && i < |resp.phases| && j < |resp.phases[i].responses|
    && w.cancelled(AgentCheck(resp, i, j)) && AliveUntil(w, AgentCheck(resp, i, j))
    && trace == Inside(requestID, resp, i, j) + [CancelledInside(resp, i, j)]
  }

  /** The trace of a debate that was executed. */
  ghost predicate Replayed(requestID: string, w: World, resp: Response, trace: seq<Event>,
                           result: Option<Response>, err: Option<Error>)
  {
    match err
    case None =>
      && EndsCompleted(requestID, w, resp, trace) && Accepted(w, trace, |trace|)
      && result == Some(resp)
    case Some(HandlerFailed(kind)) =>
      && trace != [] && trace <= Canonical(requestID, resp)
      && ((exists i: nat, j: nat :: EndsInside(requestID, w, resp, trace, i, j))
          || (exists i: nat :: EndsPhase(requestID, w, resp, trace, i))
          || EndsCompleted(requestID, w, resp, trace))
      && Accepted(w, trace, |trace| - 1) && w.fails(|trace| - 1, trace[|trace| - 1])
      && kind == trace[|trace| - 1].kind
      && result == (if kind == Completed then Some(resp) else None)
    case Some(Cancelled) =>
      && trace != [] && Accepted(w, trace, |trace| - 1) && result == None
      && ((exists i: nat :: WasCancelledBetween(requestID, w, resp, trace, i))
          || exists i: nat, j: nat :: WasCancelledInside(requestID, w, resp, trace, i, j))
    case Some(ExecuteFailed) => false
  }

  /** Every way StreamDebate can end, and what the handler saw by then. */
  ghost predicate Streamed(requestID: string, w: World, trace: seq<Event>,
                           result: Option<Response>, err: Option<Error>)
  {
    if w.cancelled(0) then
      trace == [Event(CancelledEvent, requestID, "", "", "", "", 0.0)] && result == None && err == Some(Cancelled)
    else if w.fails(0, StartedEvent(requestID)) then
      trace == [StartedEvent(requestID)] && result == None && err == Some(HandlerFailed(Started))
    else match w.response
      case None =>
        && trace == [StartedEvent(requestID),
                     Event(if w.cancelled(1) then CancelledEvent else Failed, requestID, "", "", "", "", 0.0)]
        && result == None && err == Some(ExecuteError(w))
      case Some(resp) => Replayed(requestID, w, resp, trace, result, err)
  }

  // ----- Prefixes of the canonical stream -----

  lemma {:induction false} BeforeIsPrefix(requestID: string, resp: Response, i: nat, n: nat)
    requires i <= n <= |resp.phases|
    ensures Before(requestID, resp, i) <= Before(requestID, resp, n)
    decreases n - i
  {
    if i < n {
      BeforeIsPrefix(requestID, resp, i + 1, n);
    }
  }

  lemma {:induction false} AgentEventsPrefix(resp: Response, i: nat, j: nat, m: nat)
    requires i < |resp.phases| && j <= m <= |resp.phases[i].responses|
    ensures AgentEvents(resp, i, j) <= AgentEvents(resp, i, m)
    decreases m - j
  {
    if j < m {
      AgentEventsPrefix(resp, i, j + 1, m);
    }
  }

  lemma InsideIsPrefix(requestID: string, resp: Response, i: nat, j: nat)
    requires i < |resp.phases| && j <= |resp.phases[i].responses|
    ensures Inside(requestID, resp, i, j) <= Before(requestID, resp, i + 1) <= Canonical(requestID, resp)
  {
    AgentEventsPrefix(resp, i, j, |resp.phases[i].responses|);
    BeforeIsPrefix(requestID, resp, i + 1, |resp.phases|);
  }

  // ----- The loops -----

  method StreamDebate(requestID: string, w: World)
    returns (trace: seq<Event>, result: Option<Response>, err: Option<Error>)
    ensures Streamed(requestID, w, trace, result, err)
  {
    if w.cancelled(0) {
      return [Event(CancelledEvent, requestID, "", "", "", "", 0.0)], None, Some(Cancelled);
    }
    var started := StartedEvent(requestID);
    trace := [started];
    if w.fails(0, started) {
      return trace, None, Some(HandlerFailed(Started));
    }
    if w.response == None {
      var kind := if w.cancelled(1) then CancelledEvent else Failed;
      return trace + [Event(kind, requestID, "", "", "", "", 0.0)], None, Some(ExecuteError(w));
    }
    trace, result, err := Replay(requestID, w, w.response.value);
  }

  method Replay(requestID: string, w: World, resp: Response)
    returns (trace: seq<Event>, result: Option<Response>, err: Option<Error>)
    requires !w.fails(0, StartedEvent(requestID))
    ensures Replayed(requestID, w, resp, trace, result, err)
  {
    trace := [StartedEvent(requestID)];
    var tick: nat := 1;
    for i := 0 to |resp.phases|
      invariant trace == Before(requestID, resp, i) && Accepted(w, trace, |trace|)
      invariant tick == PhaseCheck(resp, i) && AliveUntil(w, tick)
    {
      if w.cancelled(tick) {
        trace := trace + [CancelledBetween(resp, i)];
        assert WasCancelledBetween(requestID, w, resp, trace, i);
        return trace, None, Some(Cancelled);
      }
      trace, tick, err := ReplayPhase(requestID, w, resp, i, trace, tick + 1);
      if err != None {
        return trace, None, err;
      }
    }
    var completed := CompletedEvent(resp);
    trace := trace + [completed];
    if w.fails(|trace| - 1, completed) {
      return trace, Some(resp), Some(HandlerFailed(Completed));
    }
    return trace, Some(resp), None;
  }

  method ReplayPhase(requestID: string, w: World, resp: Response, i: nat, trace0: seq<Event>, tick0: nat)
    returns (trace: seq<Event>, tick: nat, err: Option<Error>)
    requires i < |resp.phases| && trace0 == Before(requestID, resp, i) && Accepted(w, trace0, |trace0|)
    requires tick0 == AgentCheck(resp, i, 0) && AliveUntil(w, tick0)
    ensures err == None ==> trace == Before(requestID, resp, i + 1) && Accepted(w, trace, |trace|)
                            && tick == PhaseCheck(resp, i + 1) && AliveUntil(w, tick)
    ensures err != None ==> Replayed(requestID, w, resp, trace, None, err)
  {
    hide Before, AgentEvents, PhaseProgress;
    var phase := resp.phases[i];
    var startEvt := PhaseStartedEvent(resp, i);
    trace, tick := trace0 + [startEvt], tick0;
    NoAgentYet(requestID, resp, i);
    if w.fails(|trace| - 1, startEvt) {
      InsideIsPrefix(requestID, resp, i, 0);
      assert EndsInside(requestID, w, resp, trace, i, 0);
      return trace, tick, Some(HandlerFailed(PhaseStarted));
    }
    for j := 0 to |phase.responses|
      invariant trace == Inside(requestID, resp, i, j) && Accepted(w, trace, |trace|)
      invariant tick == AgentCheck(resp, i, j) && AliveUntil(w, tick)
    {
      if w.cancelled(tick) {
        trace := trace + [CancelledInside(resp, i, j)];
        assert WasCancelledInside(requestID, w, resp, trace, i, j);
        return trace, tick, Some(Cancelled);
      }
      tick := tick + 1;
      var agentEvt := AgentEvent(resp, i, j);
      trace := trace + [agentEvt];
      OneMoreAgent(requestID, resp, i, j);
      if w.fails(|trace| - 1, agentEvt) {
        InsideIsPrefix(requestID, resp, i, j + 1);
        assert EndsInside(requestID, w, resp, trace, i, j + 1);
        return trace, tick, Some(HandlerFailed(AgentSaid));
      }
    }
    var endEvt := PhaseCompletedEvent(resp, i);
    trace := trace + [endEvt];
    PhaseOver(requestID, resp, i);
    if w.fails(|trace| - 1, endEvt) {
      InsideIsPrefix(requestID, resp, i, 0);
      assert EndsPhase(requestID, w, resp, trace, i);
      return trace, tick, Some(HandlerFailed(PhaseCompleted));
    }
    err := None;
  }

  lemma NoAgentYet(requestID: string, resp: Response, i: nat)
    requires i < |resp.phases|
    ensures Inside(requestID, resp, i, 0) == Before(requestID, resp, i) + [PhaseStartedEvent(resp, i)]
  {
  }

  lemma OneMoreAgent(requestID: string, resp: Response, i: nat, j: nat)
    requires i < |resp.phases| && j < |resp.phases[i].responses|
    ensures Inside(requestID, resp, i, j + 1) == Inside(requestID, resp, i, j) + [AgentEvent(resp, i, j)]
  {
  }

  lemma PhaseOver(requestID: string, resp: Response, i: nat)
    requires i < |resp.phases|
    ensures Before(requestID, resp, i + 1)
            == Inside(requestID, resp, i, |resp.phases[i].responses|) + [PhaseCompletedEvent(resp, i)]
    ensures PhaseCheck(resp, i + 1) == AgentCheck(resp, i, |resp.phases[i].responses|)
  {
  }

  // ----- Progress along the stream -----

  ghost predicate NonDecreasing(trace: seq<Event>) {
    && (forall k :: 0 <= k < |trace| ==> 0.0 <= trace[k].progress <= 1.0)
    && forall k, l :: 0 <= k < l < |trace| ==> trace[k].progress <= trace[l].progress
  }

  /** trace is non-decreasing and ends at progress p. */
  ghost predicate ProgressedTo(trace: seq<Event>, p: real) {
    trace != [] && NonDecreasing(trace) && trace[|trace| - 1].progress == p
  }

  lemma OneMoreEvent(trace: seq<Event>, p: real, e: Event)
    requires ProgressedTo(trace, p) && p <= e.progress <= 1.0
    ensures ProgressedTo(trace + [e], e.progress)
  {
  }

  ghost function ProgressBefore(resp: Response, i: nat): real {
    if i == 0 then 0.0 else PhaseProgress(i - 1, |resp.phases|, 1, 1)
  }

  lemma ProgressAtPhase(resp: Response, i: nat)
    requires i < |resp.phases|
    ensures ProgressBefore(resp, i) == PhaseProgress(i, |resp.phases|, 0, 0)
  {
    hide PhaseProgress;
    ProgressMonotone(i, |resp.phases|, 0, 0);
    if i > 0 {
      ProgressMonotone(i - 1, |resp.phases|, 0, 0);
    }
  }

  lemma {:induction false} BeforeProgress(requestID: string, resp: Response, i: nat)
    requires i <= |resp.phases|
    ensures ProgressedTo(Before(requestID, resp, i), ProgressBefore(resp, i))
    decreases i, 0, 0
  {
    if i == 0 {
    } else {
      var m := |resp.phases[i - 1].responses|;
      InsideProgress(requestID, resp, i - 1, m);
      ProgressMonotone(i - 1, |resp.phases|, m, m);
      OneMoreEvent(Inside(requestID, resp, i - 1, m), PhaseProgress(i - 1, |resp.phases|, m, m),
                   PhaseCompletedEvent(resp, i - 1));
    }
  }

  lemma {:induction false} InsideProgress(requestID: string, resp: Response, i: nat, j: nat)
    requires i < |resp.phases| && j <= |resp.phases[i].responses|
    ensures ProgressedTo(Inside(requestID, resp, i, j), PhaseProgress(i, |resp.phases|, j, |resp.phases[i].responses|))
    decreases i, 1, j
  {
    hide PhaseProgress, ProgressedTo, Before;
    var n, m := |resp.phases|, |resp.phases[i].responses|;
    ProgressMonotone(i, n, 0, m);
    if j == 0 {
      BeforeProgress(requestID, resp, i);
      ProgressAtPhase(resp, i);
      NoAgentYet(requestID, resp, i);
      OneMoreEvent(Before(requestID, resp, i), ProgressBefore(resp, i), PhaseStartedEvent(resp, i));
    } else {
      InsideProgress(requestID, resp, i, j - 1);
      OneMoreAgent(requestID, resp, i, j - 1);
      ProgressMonotone(i, n, j - 1, m);
      ProgressMonotone(i, n, j, m);
      OneMoreEvent(Inside(requestID, resp, i, j - 1), PhaseProgress(i, n, j - 1, m), AgentEvent(resp, i, j - 1));
    }
  }

  /** The canonical stream's progress never decreases, stays in [0,1] and ends at 1. */
  lemma CanonicalProgress(requestID: string, resp: Response)
    ensures ProgressedTo(Canonical(requestID, resp), 1.0)
  {
    hide PhaseProgress, ProgressedTo, Before;
    var n := |resp.phases|;
    BeforeProgress(requestID, resp, n);
    if n > 0 {
      ProgressMonotone(n - 1, n, 0, 0);
    }
    OneMoreEvent(Before(requestID, resp, n), ProgressBefore(resp, n), CompletedEvent(resp));
  }

  /** However a run ends, the progress the handler sees never decreases and stays in
      [0,1]; a run that returns no error ends at exactly 1. */
  lemma ProgressNeverDecreases(requestID: string, w: World, trace: seq<Event>,
                               result: Option<Response>, err: Option<Error>)
    requires Streamed(requestID, w, trace, result, err)
    ensures NonDecreasing(trace)
    ensures err == None ==> trace != [] && trace[|trace| - 1].progress == 1.0
  {
    hide PhaseProgress, Canonical, Before, Inside;
    if !w.cancelled(0) && !w.fails(0, StartedEvent(requestID)) && w.response != None {
      var resp := w.response.value;
      CanonicalProgress(requestID, resp);
      if err == Some(Cancelled) {
        if i: nat :| WasCancelledBetween(requestID, w, resp, trace, i) {
          BeforeProgress(requestID, resp, i);
          ProgressAtPhase(resp, i);
          ProgressMonotone(i, |resp.phases|, 0, 0);
          OneMoreEvent(Before(requestID, resp, i), ProgressBefore(resp, i), CancelledBetween(resp, i));
        } else {
          var i: nat, j: nat :| WasCancelledInside(requestID, w, resp, trace, i, j);
          var m := |resp.phases[i].responses|;
          InsideProgress(requestID, resp, i, j);
          ProgressMonotone(i, |resp.phases|, j, m);
          OneMoreEvent(Inside(requestID, resp, i, j), PhaseProgress(i, |resp.phases|, j, m),
                       CancelledInside(resp, i, j));
        }
      }
    }
  }

  /** A cancelled event repeats the progress of the event before it. */
  lemma CancellationKeepsProgress(requestID: string, w: World, resp: Response, trace: seq<Event>)
    requires Replayed(requestID, w, resp, trace, None, Some(Cancelled))
    ensures |trace| >= 2 && trace[|trace| - 1].kind == CancelledEvent
    ensures trace[|trace| - 1].progress == trace[|trace| - 2].progress
    ensures trace[..|trace| - 1] <= Canonical(requestID, resp)
  {
    hide PhaseProgress, Before, Inside, Canonical;
    if i: nat :| WasCancelledBetween(requestID, w, resp, trace, i) {
      BeforeProgress(requestID, resp, i);
      ProgressAtPhase(resp, i);
      CanonicalStartsWith(requestID, resp, i);
    } else {
      var i: nat, j: nat :| WasCancelledInside(requestID, w, resp, trace, i, j);
      InsideProgress(requestID, resp, i, j);
      InsideIsPrefix(requestID, resp, i, j);
    }
  }

  lemma CanonicalStartsWith(requestID: string, resp: Response, i: nat)
    requires i <= |resp.phases|
    ensures Before(requestID, resp, i) <= Canonical(requestID, resp)
  {
    BeforeIsPrefix(requestID, resp, i, |resp.phases|);
  }

  // ----- What was delivered -----

  /** Everything a run would deliver if nobody stopped it. */
  ghost function FullStream(requestID: string, w: World): seq<Event> {
    match w.response
    case None => [StartedEvent(requestID)]
    case Some(resp) => Canonical(requestID, resp)
  }

  lemma StartsCanonical(requestID: string, resp: Response)
    ensures [StartedEvent(requestID)] <= Canonical(requestID, resp)
  {
    CanonicalStartsWith(requestID, resp, 0);
  }

  /** Every trace is a prefix of the full stream, followed by at most one cancelled or failed
      event. */
  lemma DeliveredPrefix(requestID: string, w: World, trace: seq<Event>, result: Option<Response>, err: Option<Error>)
    requires Streamed(requestID, w, trace, result, err)
    ensures trace != []
    ensures || trace <= FullStream(requestID, w)
            || (trace[..|trace| - 1] <= FullStream(requestID, w) && trace[|trace| - 1].kind in {CancelledEvent, Failed})
  {
    hide Canonical, Before, Inside, PhaseProgress;
    if w.response != None {
      StartsCanonical(requestID, w.response.value);
      if err == Some(Cancelled) && !w.cancelled(0) {
        CancellationKeepsProgress(requestID, w, w.response.value, trace);
      } else if err == None {
        assert trace == Canonical(requestID, w.response.value);
      }
    }
  }

  // ----- What the handler is told, read off the response -----

  /** An answer as the handler should see it. */
  datatype Saying = Saying(phase: string, agentID: string, team: string, content: string)

  /** An event without its progress. */
  datatype Line = Line(kind: Kind, debateID: string, phase: string, agentID: string, team: string, content: string)

  ghost function SayingsOf(phase: Phase): (s: seq<Saying>)
    ensures |s| == |phase.responses|
  {
    seq(|phase.responses|, j requires 0 <= j < |phase.responses| =>
      Saying(phase.name, phase.responses[j].agentID, phase.responses[j].role, phase.responses[j].content))
  }

  /** The answers of all phases, phase by phase and in each in the order they were given. */
  ghost function AllSayings(phases: seq<Phase>): seq<Saying> {
    if phases == [] then [] else SayingsOf(phases[0]) + AllSayings(phases[1..])
  }

  ghost function SaidBy(e: Event): seq<Saying> {
    if e.kind == AgentSaid then [Saying(e.phase, e.agentID, e.team, e.content)] else []
  }

  /** The answers among the delivered events, in order. */
  ghost function Heard(trace: seq<Event>): seq<Saying> {
    if trace == [] then [] else SaidBy(trace[0]) + Heard(trace[1..])
  }

  ghost function Told(trace: seq<Event>): (lines: seq<Line>)
    ensures |lines| == |trace|
  {
    seq(|trace|, k requires 0 <= k < |trace| =>
      Line(trace[k].kind, trace[k].debateID, trace[k].phase, trace[k].agentID, trace[k].team, trace[k].content))
  }

  /** Each phase is announced, its answers follow, and its end is announced. */
  ghost function Script(id: string, phases: seq<Phase>): seq<Line> {
    if phases == [] then [] else
      var name, said := phases[0].name, SayingsOf(phases[0]);
      [Line(PhaseStarted, id, name, "", "", "")]
      + seq(|said|, j requires 0 <= j < |said| =>
          Line(AgentSaid, id, name, said[j].agentID, said[j].team, said[j].content))
      + [Line(PhaseCompleted, id, name, "", "", "")]
      + Script(id, phases[1..])
  }

  lemma {:induction false} HeardConcat(a: seq<Event>, b: seq<Event>)
    ensures Heard(a + b) == Heard(a) + Heard(b)
  {
    hide SaidBy;
    if a == [] {
      assert a + b == b;
    } else {
      HeardConcat(a[1..], b);
      assert (a + b)[1..] == a[1..] + b && (a + b)[0] == a[0];
      assert Heard(a + b) == SaidBy(a[0]) + (Heard(a[1..]) + Heard(b));
    }
  }

  lemma {:induction false} AllSayingsConcat(a: seq<Phase>, b: seq<Phase>)
    ensures AllSayings(a + b) == AllSayings(a) + AllSayings(b)
  {
    if a == [] {
      assert a + b == b;
    } else {
      assert (a + b)[1..] == a[1..] + b;
      AllSayingsConcat(a[1..], b);
    }
  }

  lemma {:induction false} ScriptConcat(id: string, a: seq<Phase>, b: seq<Phase>)
    ensures Script(id, a + b) == Script(id, a) + Script(id, b)
  {
    if a == [] {
      assert a + b == b;
    } else {
      assert (a + b)[1..] == a[1..] + b;
      ScriptConcat(id, a[1..], b);
    }
  }

  lemma {:induction false} AnswersHeard(resp: Response, i: nat, j: nat)
    requires i < |resp.phases| && j <= |resp.phases[i].responses|
    ensures Heard(AgentEvents(resp, i, j)) == SayingsOf(resp.phases[i])[..j]
    ensures |AgentEvents(resp, i, j)| == j
    ensures forall k :: 0 <= k < j ==> var said := SayingsOf(resp.phases[i])[k];
              Told(AgentEvents(resp, i, j))[k]
              == Line(AgentSaid, resp.id, said.phase, said.agentID, said.team, said.content)
  {
    hide PhaseProgress;
    if j > 0 {
      AnswersHeard(resp, i, j - 1);
      HeardConcat(AgentEvents(resp, i, j - 1), [AgentEvent(resp, i, j - 1)]);
    }
  }

  /** All events of phase i. */
  ghost function PhaseEvents(resp: Response, i: nat): seq<Event>
    requires i < |resp.phases|
  {
    [PhaseStartedEvent(resp, i)] + AgentEvents(resp, i, |resp.phases[i].responses|) + [PhaseCompletedEvent(resp, i)]
  }

  lemma PhaseHeard(resp: Response, i: nat)
    requires i < |resp.phases|
    ensures Heard(PhaseEvents(resp, i)) == SayingsOf(resp.phases[i])
  {
    hide PhaseProgress;
    var said := AgentEvents(resp, i, |resp.phases[i].responses|);
    AnswersHeard(resp, i, |resp.phases[i].responses|);
    HeardConcat([PhaseStartedEvent(resp, i)], said);
    HeardConcat([PhaseStartedEvent(resp, i)] + said, [PhaseCompletedEvent(resp, i)]);
  }

  lemma PhaseTold(resp: Response, i: nat)
    requires i < |resp.phases|
    ensures Told(PhaseEvents(resp, i)) == Script(resp.id, [resp.phases[i]])
  {
    hide PhaseProgress, Heard, AgentEvents;
    AnswersHeard(resp, i, |resp.phases[i].responses|);
  }

  lemma BeforeNext(requestID: string, resp: Response, i: nat)
    requires 0 < i <= |resp.phases|
    ensures Before(requestID, resp, i) == Before(requestID, resp, i - 1) + PhaseEvents(resp, i - 1)
  {
    var said := AgentEvents(resp, i - 1, |resp.phases[i - 1].responses|);
    assert Before(requestID, resp, i) == Before(requestID, resp, i - 1) + [PhaseStartedEvent(resp, i - 1)] + said
                                         + [PhaseCompletedEvent(resp, i - 1)];
    hide *;
  }

  lemma {:induction false} HeardBefore(requestID: string, resp: Response, i: nat)
    requires i <= |resp.phases|
    ensures Heard(Before(requestID, resp, i)) == AllSayings(resp.phases[..i])
  {
    if i == 0 {
      HeardOne(StartedEvent(requestID));
    } else {
      var ph := resp.phases[i - 1];
      HeardBefore(requestID, resp, i - 1);
      PhaseHeard(resp, i - 1);
      BeforeNext(requestID, resp, i);
      assert AllSayings([ph]) == SayingsOf(ph) + AllSayings([]) == SayingsOf(ph);
      hide *;
      assert resp.phases[..i] == resp.phases[..i - 1] + [ph];
      AllSayingsConcat(resp.phases[..i - 1], [ph]);
      HeardConcat(Before(requestID, resp, i - 1), PhaseEvents(resp, i - 1));
    }
  }

  lemma ToldConcat(a: seq<Event>, b: seq<Event>)
    ensures Told(a + b) == Told(a) + Told(b)
  {
  }

  lemma Regroup<T>(a: seq<T>, b: seq<T>, c: seq<T>)
    ensures a + b + c == a + (b + c)
  {
  }

  lemma {:induction false} ToldBefore(requestID: string, resp: Response, i: nat)
    requires i <= |resp.phases|
    ensures Told(Before(requestID, resp, i))
            == [Line(Started, requestID, "", "", "", "")] + Script(resp.id, resp.phases[..i])
  {
    if i > 0 {
      var ph := resp.phases[i - 1];
      ToldBefore(requestID, resp, i - 1);
      hide *;
      PhaseTold(resp, i - 1);
      BeforeNext(requestID, resp, i);
      assert resp.phases[..i] == resp.phases[..i - 1] + [ph] by {
        assert resp.phases[i - 1] == ph;
      }
      ScriptConcat(resp.id, resp.phases[..i - 1], [ph]);
      ToldConcat(Before(requestID, resp, i - 1), PhaseEvents(resp, i - 1));
      Regroup([Line(Started, requestID, "", "", "", "")], Script(resp.id, resp.phases[..i - 1]), Script(resp.id, [ph]));
    }
  }

  lemma HeardInside(requestID: string, resp: Response, i: nat, j: nat)
    requires i < |resp.phases| && j <= |resp.phases[i].responses|
    ensures Heard(Inside(requestID, resp, i, j)) == AllSayings(resp.phases[..i]) + SayingsOf(resp.phases[i])[..j]
  {
    var before, start, said := Before(requestID, resp, i), [PhaseStartedEvent(resp, i)], AgentEvents(resp, i, j);
    assert Inside(requestID, resp, i, j) == before + start + said;
    assert PhaseStartedEvent(resp, i).kind != AgentSaid;
    hide *;
    HeardConcat(before + start, said);
    LastIsSilent(before + start);
    assert (before + start)[..|before|] == before;
    HeardBefore(requestID, resp, i);
    AnswersHeard(resp, i, j);
  }

  lemma HeardCanonical(requestID: string, resp: Response)
    ensures Heard(Canonical(requestID, resp)) == AllSayings(resp.phases)
    ensures Told(Canonical(requestID, resp))
            == [Line(Started, requestID, "", "", "", "")] + Script(resp.id, resp.phases)
               + [Line(Completed, resp.id, "", "", "", "")]
  {
    hide Before;
    HeardBefore(requestID, resp, |resp.phases|);
    ToldBefore(requestID, resp, |resp.phases|);
    assert resp.phases[..|resp.phases|] == resp.phases;
    HeardConcat(Before(requestID, resp, |resp.phases|), [CompletedEvent(resp)]);
  }

  lemma HeardPrefix(a: seq<Event>, b: seq<Event>)
    requires a <= b
    ensures Heard(a) <= Heard(b) && Told(a) <= Told(b)
  {
    HeardConcat(a, b[|a|..]);
    assert a + b[|a|..] == b;
  }

  /** However a run ends, the answers the handler has heard are the first of the response's
      answers, in their order and under their phase; a run without error delivers them all. */
  lemma AnswersInOrder(requestID: string, w: World, trace: seq<Event>, result: Option<Response>, err: Option<Error>)
    requires Streamed(requestID, w, trace, result, err) && w.response != None
    ensures Heard(trace) <= AllSayings(w.response.value.phases)
    ensures err == None ==> Heard(trace) == AllSayings(w.response.value.phases)
  {
    EndsLikeCanonical(requestID, w, trace, result, err);
    hide *;
    var canonical := Canonical(requestID, w.response.value);
    HeardCanonical(requestID, w.response.value);
    if trace <= canonical {
      HeardPrefix(trace, canonical);
    } else {
      HeardPrefix(trace[..|trace| - 1], canonical);
      LastIsSilent(trace);
    }
  }

  lemma LastIsSilent(trace: seq<Event>)
    requires trace != [] && trace[|trace| - 1].kind != AgentSaid
    ensures Heard(trace) == Heard(trace[..|trace| - 1])
  {
    var last := |trace| - 1;
    HeardOne(trace[last]);
    assert trace == trace[..last] + [trace[last]];
    hide *;
    HeardConcat(trace[..last], [trace[last]]);
  }

  /** So do all events: however a run ends, they follow the script, up to a closing event. */
  lemma EventsFollowScript(requestID: string, w: World, trace: seq<Event>, result: Option<Response>,
                           err: Option<Error>)
    requires Streamed(requestID, w, trace, result, err) && w.response != None && trace != []
    ensures var resp := w.response.value;
            var whole := [Line(Started, requestID, "", "", "", "")] + Script(resp.id, resp.phases)
                         + [Line(Completed, resp.id, "", "", "", "")];
            && (err == None ==> Told(trace) == whole)
            && (Told(trace) <= whole
                || (Told(trace[..|trace| - 1]) <= whole && trace[|trace| - 1].kind in {CancelledEvent, Failed}))
  {
    EndsLikeCanonical(requestID, w, trace, result, err);
    hide *;
    var canonical := Canonical(requestID, w.response.value);
    HeardCanonical(requestID, w.response.value);
    if trace <= canonical {
      HeardPrefix(trace, canonical);
    } else {
      HeardPrefix(trace[..|trace| - 1], canonical);
    }
  }

  lemma EndsLikeCanonical(requestID: string, w: World, trace: seq<Event>, result: Option<Response>,
                          err: Option<Error>)
    requires Streamed(requestID, w, trace, result, err) && w.response != None
    ensures var canonical := Canonical(requestID, w.response.value);
            && trace != [] && (err == None ==> trace == canonical)
            && (trace <= canonical
                || (trace[..|trace| - 1] <= canonical && trace[|trace| - 1].kind in {CancelledEvent, Failed}))
  {
    DeliveredPrefix(requestID, w, trace, result, err);
    hide Canonical;
  }

  /** The answer after the first ones of the first phases. */
  lemma NextSaying(phases: seq<Phase>, i: nat, j: nat)
    requires i < |phases| && j < |phases[i].responses|
    ensures var k := |AllSayings(phases[..i])| + j;
            k < |AllSayings(phases)| && AllSayings(phases)[k] == SayingsOf(phases[i])[j]
  {
    AllSayingsConcat(phases[..i], phases[i..]);
    assert phases[..i] + phases[i..] == phases;
    assert AllSayings(phases[i..]) == SayingsOf(phases[i]) + AllSayings(phases[i..][1..]);
  }

  lemma CancelledInsideNamesNext(requestID: string, w: World, resp: Response, trace: seq<Event>, i: nat, j: nat)
    requires WasCancelledInside(requestID, w, resp, trace, i, j)
    ensures var all, heard := AllSayings(resp.phases), Heard(trace);
            && trace != [] && |heard| < |all|
            && Told(trace)[|trace| - 1]
               == Line(CancelledEvent, resp.id, all[|heard|].phase, all[|heard|].agentID, "", "")
  {
    var e, said := CancelledInside(resp, i, j), SayingsOf(resp.phases[i])[j];
    assert trace == Inside(requestID, resp, i, j) + [e] && e.kind != AgentSaid;
    assert Told(trace)[|trace| - 1] == Line(CancelledEvent, resp.id, said.phase, said.agentID, "", "") by {
      hide Inside, Heard, AllSayings;
      assert trace[|trace| - 1] == e;
    }
    hide *;
    LastIsSilent(trace);
    HeardInside(requestID, resp, i, j);
    NextSaying(resp.phases, i, j);
  }

  /** A cancelled event of a replay carries the debate's ID and says who was about to speak,
      unless the next thing was a phase beginning. */
  lemma CancellationNamesNext(requestID: string, w: World, resp: Response, trace: seq<Event>)
    requires Replayed(requestID, w, resp, trace, None, Some(Cancelled))
    ensures |trace| >= 2
    ensures var all, heard, last := AllSayings(resp.phases), Heard(trace), Told(trace)[|trace| - 1];
            || last == Line(CancelledEvent, resp.id, "", "", "", "")
            || (|heard| < |all|
                && last == Line(CancelledEvent, resp.id, all[|heard|].phase, all[|heard|].agentID, "", ""))
  {
    hide PhaseProgress, Before, Inside, Canonical, Heard, AllSayings, WasCancelledInside;
    CancellationKeepsProgress(requestID, w, resp, trace);
    if i: nat, j: nat :| WasCancelledInside(requestID, w, resp, trace, i, j) {
      CancelledInsideNamesNext(requestID, w, resp, trace, i, j);
    }
  }

  lemma HeardOne(e: Event)
    ensures Heard([e]) == SaidBy(e)
  {
  }

  // ----- The error returned after a last event -----

  /** A closing event tells why a stream stopped. */
  predicate IsClosing(kind: Kind) {
    kind == CancelledEvent || kind == Failed
  }

  lemma {:induction false} CanonicalNeverCloses(requestID: string, resp: Response, i: nat)
    requires i <= |resp.phases|
    ensures forall e :: e in Before(requestID, resp, i) ==> !IsClosing(e.kind)
  {
    hide PhaseProgress;
    if i > 0 {
      CanonicalNeverCloses(requestID, resp, i - 1);
      AnswersNeverClose(resp, i - 1, |resp.phases[i - 1].responses|);
    }
  }

  lemma {:induction false} AnswersNeverClose(resp: Response, i: nat, j: nat)
    requires i < |resp.phases| && j <= |resp.phases[i].responses|
    ensures forall e :: e in AgentEvents(resp, i, j) ==> !IsClosing(e.kind)
  {
    hide PhaseProgress;
    if j > 0 {
      AnswersNeverClose(resp, i, j - 1);
    }
  }

  /** What a run returns, by its last event: after a closing one the reason for stopping,
      whatever the handler says of it; otherwise the handler's error or nothing. */
  lemma ErrorByLastEvent(requestID: string, w: World, trace: seq<Event>, result: Option<Response>, err: Option<Error>)
    requires Streamed(requestID, w, trace, result, err)
    ensures trace != []
    ensures IsClosing(trace[|trace| - 1].kind) ==>
              err == Some(if !w.cancelled(0) && w.response == None then ExecuteError(w) else Cancelled)
    ensures var last := |trace| - 1;
            !IsClosing(trace[last].kind) ==>
              err == if w.fails(last, trace[last]) then Some(HandlerFailed(trace[last].kind)) else None
  {
    hide PhaseProgress, Before, Inside;
    if !w.cancelled(0) && w.response != None {
      CanonicalNeverCloses(requestID, w.response.value, |w.response.value.phases|);
    }
  }

  /** The documented return of a handler's error on any event: when the handler fails on the
      last event, its error comes back exactly when that event is not a closing one. */
  lemma HandlerErrorIff(requestID: string, w: World, trace: seq<Event>, result: Option<Response>, err: Option<Error>)
    requires Streamed(requestID, w, trace, result, err)
    requires trace != [] && w.fails(|trace| - 1, trace[|trace| - 1])
    ensures var kind := trace[|trace| - 1].kind;
            err == Some(HandlerFailed(kind)) <==> kind !in {CancelledEvent, Failed}
  {
    hide Streamed;
    ErrorByLastEvent(requestID, w, trace, result, err);
  }

  /** The documented error after a cancelled event: the handler's own error on it, if it has
      one, and the context's otherwise. */
  function PromisedError(w: World, trace: seq<Event>): Error
    requires trace != []
  {
    var last := |trace| - 1;
    if w.fails(last, trace[last]) then HandlerFailed(trace[last].kind) else Cancelled
  }

  /** The debate was started and failed for another reason than the context. */
  predicate FailedOtherwise(w: World) {
    !w.cancelled(0) && w.response == None && !w.contextStopped
  }

  /** After a cancelled event the documented error is returned exactly when the handler accepts
      the event and the debate did not fail for a reason of its own. */
  lemma PromisedErrorIff(requestID: string, w: World, trace: seq<Event>, result: Option<Response>, err: Option<Error>)
    requires Streamed(requestID, w, trace, result, err) && trace != [] && trace[|trace| - 1].kind == CancelledEvent
    ensures err == Some(PromisedError(w, trace))
            <==> !w.fails(|trace| - 1, trace[|trace| - 1]) && !FailedOtherwise(w)
  {
    hide Streamed;
    ErrorByLastEvent(requestID, w, trace, result, err);
  }

  /** A handler that fails on events of one kind, a context cancelled from look t on, and a
      debate that fails for a reason of its own. */
  function Rejecting(kind: Option<Kind>, t: nat): World {
    World((n: nat, e: Event) => kind == Some(e.kind), (look: nat) => look >= t, None, false)
  }

  /** The handler's error on the cancelled event is lost. */
  lemma HandlerErrorIsLost(requestID: string, trace: seq<Event>, result: Option<Response>, err: Option<Error>)
    requires Streamed(requestID, Rejecting(Some(CancelledEvent), 0), trace, result, err)
    ensures |trace| == 1 && trace[0].kind == CancelledEvent && Rejecting(Some(CancelledEvent), 0).fails(0, trace[0])
    ensures err == Some(Cancelled) != Some(PromisedError(Rejecting(Some(CancelledEvent), 0), trace))
  {
  }

  /** The handler's error on the failed event is lost, too. */
  lemma FailedEventErrorIsLost(requestID: string, trace: seq<Event>, result: Option<Response>, err: Option<Error>)
    requires Streamed(requestID, Rejecting(Some(Failed), 2), trace, result, err)
    ensures |trace| == 2 && trace[1].kind == Failed && Rejecting(Some(Failed), 2).fails(1, trace[1])
    ensures err == Some(ExecuteFailed)
  {
  }

  /** The handler accepts the cancelled event, and another error than the context's comes back. */
  lemma ContextErrorIsLost(requestID: string, trace: seq<Event>, result: Option<Response>, err: Option<Error>)
    requires Streamed(requestID, Rejecting(None, 1), trace, result, err)
    ensures |trace| == 2 && trace[1].kind == CancelledEvent && !Rejecting(None, 1).fails(1, trace[1])
    ensures err == Some(ExecuteFailed) != Some(PromisedError(Rejecting(None, 1), trace))
  {
  }
}
