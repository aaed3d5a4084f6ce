/** The debate runner (protocol/protocol.go): rounds of eight phases, each asking every
    registered agent in sorted order. */
module Protocol {
  import opened Wrappers
  import opened Ordering
  import opened Text
  import opened Consensus

  const PHASES := ["dehallucination", "self_evolvement", "proposal", "critique",
                   "review", "optimization", "adversarial", "convergence"]

  const PROMPT_WINDOW := 16

  /** What buildPhasePrompt renders: the transcript is the capped list of prior responses. */
  datatype Prompt = Prompt(topic: string, context: string, round: nat, phase: string, transcript: seq<Response>)

  datatype Invocation = Answer(response: Response) | NoAnswer | Failure

  /** An invoker may answer differently on every call: it sees the call number. */
  type Invoker = (nat, Prompt) -> Invocation

  datatype Config = Config(
    topic: string,
    context: string,
    maxRounds: int,
    enableEarlyExit: bool,
    minConsensusScore: real)

  /** What the environment decides: whether the n-th look at the context finds it
      cancelled, and the time and latency observed at the n-th invocation. */
  datatype World = World(cancelled: nat -> bool, now: nat -> int, latency: nat -> int)

  datatype PhaseResult = PhaseResult(phase: string, round: nat, responses: seq<Response>)

  datatype DebateResult = DebateResult(
    phases: seq<PhaseResult>,
    totalResponses: nat,
    totalInvocations: nat,
    roundsCompleted: nat,
    earlyExit: bool,
    finalConsensus: Option<ConsensusResult>,
    content: string,
    success: bool)

  datatype Error =
    | EmptyID | NilInvoker
    | Cancelled | EmptyTopic | BadMaxRounds | NoAgentsConfigured
    | InvokeFailed(agent: string, round: nat, phase: string)
    | NilResponse(agent: string, round: nat, phase: string)

  /** One debate: its configuration, the agents in sorted order, and the world it meets. */
  datatype Debate = Debate(cfg: Config, ids: seq<string>, invokers: map<string, Invoker>, world: World)
  {
    ghost predicate Valid() {
      ids != [] && Ascending(ids) && (forall id :: id in ids <==> id in invokers) && cfg.maxRounds > 0
    }
  }

  /** The last 16 responses, or all of them. */
  function Window(prior: seq<Response>): seq<Response> {
    if |prior| > PROMPT_WINDOW then prior[|prior| - PROMPT_WINDOW..] else prior
  }

  function BuildPhasePrompt(cfg: Config, phase: string, round: nat, prior: seq<Response>): Prompt {
    Prompt(cfg.topic, cfg.context, round, phase, Window(prior))
  }

  /** Fields the invoker left unset are filled in. */
  function Fill(r: Response, id: string, phase: string, now: int, latency: int): Response {
    Response(
      if r.agentID == "" then id else r.agentID,
      if r.phase == "" then phase else r.phase,
      r.content,
      if r.timestamp == 0 then now else r.timestamp,
      if r.latency == 0 then latency else r.latency)
  }

  // ----- The canonical schedule: phase p is PHASES[p % 8] of round p / 8 + 1 -----

  ghost function PhaseName(p: nat): string {
    PHASES[p % 8]
  }

  ghost function RoundOf(p: nat): nat {
    p / 8 + 1
  }

  // Which look at the context is which: one on entry, then one before each round, one before
  // each phase and one before each agent. n is the number of responses collected so far.

  ghost function RoundCheck(p: nat, n: nat): nat {
    RoundOf(p) + p + n
  }

  ghost function PhaseCheck(p: nat, n: nat): nat {
    1 + RoundOf(p) + p + n
  }

  ghost function AgentCheck(p: nat, n: nat): nat {
    2 + RoundOf(p) + p + n
  }

  /** The context was found alive where phase p begins. */
  ghost predicate PhaseBegan(d: Debate, n: nat, p: nat) {
    (p % 8 == 0 ==> !d.world.cancelled(RoundCheck(p, n))) && !d.world.cancelled(PhaseCheck(p, n))
  }

  /** What agent number a says in phase p after the given prior responses. */
  ghost function Outcome(d: Debate, prior: seq<Response>, p: nat, a: nat): Invocation
    requires d.Valid() && a < |d.ids|
  {
    d.invokers[d.ids[a]](|prior|, BuildPhasePrompt(d.cfg, PhaseName(p), RoundOf(p), prior))
  }

  /** r is the recorded answer of agent number a in phase p after the prior responses. */
  ghost predicate Answered(d: Debate, prior: seq<Response>, p: nat, a: nat, r: Response)
    requires d.Valid() && a < |d.ids|
  {
    var outcome := Outcome(d, prior, p, a);
    && !d.world.cancelled(AgentCheck(p, |prior|))
    && outcome.Answer?
    && r == Fill(outcome.response, d.ids[a], PhaseName(p), d.world.now(|prior|), d.world.latency(|prior|))
  }

  /** All responses of a phase list, in order. */
  ghost function Transcript(phases: seq<PhaseResult>): seq<Response> {
    if phases == [] then [] else Transcript(phases[..|phases| - 1]) + phases[|phases| - 1].responses
  }

  /** ph is phase p of the schedule: its responses are those of the first agents, in
      order, each prompted with everything said before. */
  ghost predicate PhaseRan(d: Debate, prior: seq<Response>, p: nat, ph: PhaseResult)
    requires d.Valid()
  {
    && PhaseBegan(d, |prior|, p)
    && ph.phase == PhaseName(p) && ph.round == RoundOf(p)
    && |ph.responses| <= |d.ids|
    && forall a :: 0 <= a < |ph.responses| ==> Answered(d, prior + ph.responses[..a], p, a, ph.responses[a])
  }

  ghost predicate PhasesRan(d: Debate, phases: seq<PhaseResult>)
    requires d.Valid()
  {
    forall p :: 0 <= p < |phases| ==> PhaseRan(d, Transcript(phases[..p]), p, phases[p])
  }

  /** Every agent answered in each of the first n phases. */
  ghost predicate Full(d: Debate, phases: seq<PhaseResult>, n: nat)
    requires n <= |phases|
  {
    forall p :: 0 <= p < n ==> |phases[p].responses| == |d.ids|
  }

  ghost predicate Meets(cfg: Config, c: Option<ConsensusResult>) {
    cfg.enableEarlyExit && c != None && c.value.confidence >= cfg.minConsensusScore
  }

  /** The responses of round q, the first being round 1. */
  ghost function RoundResponses(phases: seq<PhaseResult>, q: nat): seq<Response>
    requires 1 <= q && 8 * q <= |phases|
  {
    Transcript(phases[8 * (q - 1)..8 * q])
  }

  ghost predicate NoRoundMet(d: Debate, phases: seq<PhaseResult>, rounds: nat)
    requires 8 * rounds <= |phases|
  {
    forall q, c :: 1 <= q <= rounds && IsConsensus(RoundResponses(phases, q), c) ==> !Meets(d.cfg, c)
  }

  ghost predicate CleanReturn(d: Debate, r: DebateResult)
    requires d.Valid()
  {
    && 1 <= r.roundsCompleted <= d.cfg.maxRounds
    && |r.phases| == 8 * r.roundsCompleted
    && Full(d, r.phases, |r.phases|)
    && r.totalInvocations == r.totalResponses
    && IsConsensus(RoundResponses(r.phases, r.roundsCompleted), r.finalConsensus)
    && r.earlyExit == Meets(d.cfg, r.finalConsensus)
    && (!r.earlyExit ==> r.roundsCompleted == d.cfg.maxRounds)
    && NoRoundMet(d, r.phases, r.roundsCompleted - 1)
    && r.content == (if r.finalConsensus == None then "" else r.finalConsensus.value.choice)
    && r.success
  }

  /** Why agent number a of phase p stopped the run: it failed or gave no answer. A failure
      found together with a cancelled context is reported as the cancellation. */
  ghost predicate Broke(d: Debate, prior: seq<Response>, p: nat, a: nat, err: Error)
    requires d.Valid() && a < |d.ids|
  {
    && !d.world.cancelled(AgentCheck(p, |prior|))
    && match Outcome(d, prior, p, a)
       case Answer(_) => false
       case NoAnswer => err == NilResponse(d.ids[a], RoundOf(p), PhaseName(p))
       case Failure =>
         err == if d.world.cancelled(AgentCheck(p, |prior|) + 1) then Cancelled
                else InvokeFailed(d.ids[a], RoundOf(p), PhaseName(p))
  }

  ghost predicate LastIsPartial(d: Debate, phases: seq<PhaseResult>) {
    phases != [] && |phases[|phases| - 1].responses| < |d.ids|
  }

  /** How many rounds ran through all eight phases. */
  ghost function RoundsThrough(d: Debate, phases: seq<PhaseResult>): nat {
    if LastIsPartial(d, phases) then (|phases| - 1) / 8 else |phases| / 8
  }

  /** Where a run that made no failing invocation was cancelled: inside its last phase, or
      before the next phase began. */
  ghost predicate WasCancelled(d: Debate, phases: seq<PhaseResult>, n: nat) {
    if LastIsPartial(d, phases) then d.world.cancelled(AgentCheck(|phases| - 1, n))
    else |phases| < 8 * d.cfg.maxRounds && !PhaseBegan(d, n, |phases|)
  }

  ghost predicate Aborted(d: Debate, r: DebateResult, err: Error)
    requires d.Valid()
  {
    && NoRoundMet(d, r.phases, RoundsThrough(d, r.phases))
    && r.roundsCompleted == 0 && !r.earlyExit && r.finalConsensus == None && r.content == "" && !r.success
    && if r.totalInvocations == r.totalResponses
       then err == Cancelled && WasCancelled(d, r.phases, r.totalResponses)
       else
         var last := |r.phases| - 1;
         && r.totalInvocations == r.totalResponses + 1
         && 0 <= last && |r.phases[last].responses| < |d.ids|
         && Broke(d, Transcript(r.phases), last, |r.phases[last].responses|, err)
  }

  /** What every run of Execute keeps, however it ends. */
  ghost predicate RunKept(d: Debate, r: DebateResult, err: Option<Error>)
    requires d.Valid()
  {
    && PhasesRan(d, r.phases)
    && |r.phases| <= 8 * d.cfg.maxRounds
    && (r.phases != [] ==> Full(d, r.phases, |r.phases| - 1))
    && r.totalResponses == |Transcript(r.phases)|
    && match err
       case None => CleanReturn(d, r)
       case Some(e) => Aborted(d, r, e)
  }

  // ----- States of an unfinished run -----

  /** All phases so far are full, and `all` is everything said. */
  ghost predicate Underway(d: Debate, phases: seq<PhaseResult>, all: seq<Response>)
    requires d.Valid()
  {
    PhasesRan(d, phases) && all == Transcript(phases) && Full(d, phases, |phases|)
  }

  /** The run stopped with error e after these phases, the last one possibly partial. */
  ghost predicate Stopped(d: Debate, phases: seq<PhaseResult>, all: seq<Response>, failed: bool, e: Error)
    requires d.Valid()
  {
    && PhasesRan(d, phases) && all == Transcript(phases)
    && (phases != [] ==> Full(d, phases, |phases| - 1))
    && Aborted(d, AbortedResult(phases, |all|, if failed then |all| + 1 else |all|), e)
  }

  /** How phase p ended: with every agent's answer, or with an error. */
  ghost predicate PhaseEnded(d: Debate, prior: seq<Response>, p: nat, ph: PhaseResult, failed: bool, err: Option<Error>)
    requires d.Valid()
  {
    && PhaseRan(d, prior, p, ph)
    && match err
       case None => !failed && |ph.responses| == |d.ids|
       case Some(e) =>
         && |ph.responses| < |d.ids|
         && if failed then Broke(d, prior + ph.responses, p, |ph.responses|, e)
            else e == Cancelled && d.world.cancelled(AgentCheck(p, |prior| + |ph.responses|))
  }

  lemma PhaseDone(d: Debate, phases: seq<PhaseResult>, all: seq<Response>, ph: PhaseResult, failed: bool,
                  err: Option<Error>)
    requires d.Valid() && Underway(d, phases, all) && PhaseEnded(d, all, |phases|, ph, failed, err)
    requires NoRoundMet(d, phases, |phases| / 8)
    ensures |phases| % 8 != 7 || err != None ==> NoRoundMet(d, phases + [ph], |phases| / 8)
    ensures match err
            case None => Underway(d, phases + [ph], all + ph.responses)
            case Some(e) => Stopped(d, phases + [ph], all + ph.responses, failed, e)
  {
    hide PhaseRan, Broke, NoRoundMet, PhasesRan, Transcript;
    PhaseAdded(d, phases, ph);
    EarlierRoundsUnmet(d, phases, ph, |phases| / 8);
  }

  lemma EarlierRoundsUnmet(d: Debate, phases: seq<PhaseResult>, ph: PhaseResult, rounds: nat)
    requires 8 * rounds <= |phases| && NoRoundMet(d, phases, rounds)
    ensures NoRoundMet(d, phases + [ph], rounds)
  {
    hide IsConsensus, Transcript;
    forall q | 1 <= q <= rounds ensures RoundResponses(phases + [ph], q) == RoundResponses(phases, q) {
      assert (phases + [ph])[8 * (q - 1)..8 * q] == phases[8 * (q - 1)..8 * q];
    }
  }

  lemma StoppedBetween(d: Debate, phases: seq<PhaseResult>, all: seq<Response>)
    requires d.Valid() && Underway(d, phases, all) && !PhaseBegan(d, |all|, |phases|)
    requires |phases| < 8 * d.cfg.maxRounds && NoRoundMet(d, phases, |phases| / 8)
    ensures Stopped(d, phases, all, false, Cancelled)
  {
  }

  // ----- Lemmas on transcripts -----

  lemma PhaseAdded(d: Debate, phases: seq<PhaseResult>, ph: PhaseResult)
    requires d.Valid() && PhasesRan(d, phases) && PhaseRan(d, Transcript(phases), |phases|, ph)
    ensures PhasesRan(d, phases + [ph])
    ensures Transcript(phases + [ph]) == Transcript(phases) + ph.responses
  {
    hide PhaseRan;
    var more := phases + [ph];
    assert more[..|more| - 1] == phases;
    forall p | 0 <= p < |more| ensures PhaseRan(d, Transcript(more[..p]), p, more[p]) {
      if p < |phases| {
        assert more[..p] == phases[..p];
      }
    }
  }

  lemma {:induction false} TranscriptConcat(a: seq<PhaseResult>, b: seq<PhaseResult>)
    ensures Transcript(a + b) == Transcript(a) + Transcript(b)
  {
    if b == [] {
      assert a + b == a;
    } else {
      var last := |b| - 1;
      assert (a + b)[..|a + b| - 1] == a + b[..last];
      TranscriptConcat(a, b[..last]);
    }
  }

  lemma {:induction false} FullTranscript(d: Debate, phases: seq<PhaseResult>)
    requires Full(d, phases, |phases|)
    ensures |Transcript(phases)| == |phases| * |d.ids|
  {
    if phases != [] {
      FullTranscript(d, phases[..|phases| - 1]);
    }
  }

  /** A clean return collected one response per agent, phase and round. */
  lemma CleanReturnCount(d: Debate, r: DebateResult)
    requires d.Valid() && RunKept(d, r, None)
    ensures r.totalResponses == r.totalInvocations == 8 * r.roundsCompleted * |d.ids|
  {
    FullTranscript(d, r.phases);
  }

  /** A run that is never cancelled and whose invokers always answer returns cleanly. */
  lemma UntroubledRunIsClean(d: Debate, r: DebateResult, err: Option<Error>)
    requires d.Valid() && RunKept(d, r, err)
    requires forall t: nat :: !d.world.cancelled(t)
    requires forall id, k, prompt :: id in d.invokers ==> d.invokers[id](k, prompt).Answer?
    ensures err == None
  {
  }

  // ----- What every agent was asked, told without the prompt builder -----

  /** The documented order of the eight phases. */
  ghost function ScheduledPhase(p: nat): string {
    match p % 8
    case 0 => "dehallucination"
    case 1 => "self_evolvement"
    case 2 => "proposal"
    case 3 => "critique"
    case 4 => "review"
    case 5 => "optimization"
    case 6 => "adversarial"
    case _ => "convergence"
  }

  /** latest are the newest 16 of the responses so far, or all of them when there are fewer. */
  ghost predicate AreLatest(prior: seq<Response>, rest: seq<Response>, latest: seq<Response>) {
    prior == rest + latest && |latest| == if |prior| < 16 then |prior| else 16
  }

  /** r is what the agent said, with only its unset fields derived from the invocation. */
  ghost predicate RecordsReply(r: Response, said: Response, id: string, phase: string, now: int, latency: int) {
    && r.content == said.content
    && (if said.agentID != "" then r.agentID == said.agentID else r.agentID == id)
    && (if said.phase != "" then r.phase == said.phase else r.phase == phase)
    && (if said.timestamp != 0 then r.timestamp == said.timestamp else r.timestamp == now)
    && (if said.latency != 0 then r.latency == said.latency else r.latency == latency)
  }

  lemma PhasesAreScheduled(p: nat)
    ensures PhaseName(p) == ScheduledPhase(p)
  {
  }

  /** However a run ends, each of its answers is recorded under the scheduled phase and round,
      and is what that agent said when shown the topic, the context, the phase, the round and
      the newest 16 of all earlier answers. */
  lemma AnswersSawTheLatest(d: Debate, r: DebateResult, err: Option<Error>, p: nat, a: nat)
    requires d.Valid() && RunKept(d, r, err) && p < |r.phases| && a < |r.phases[p].responses|
    ensures r.phases[p].phase == ScheduledPhase(p) && r.phases[p].round == p / 8 + 1
    ensures a < |d.ids|
    ensures var prior := Transcript(r.phases[..p]) + r.phases[p].responses[..a];
            exists rest, latest :: AreLatest(prior, rest, latest)
              && var reply := d.invokers[d.ids[a]](|prior|, Prompt(d.cfg.topic, d.cfg.context, p / 8 + 1,
                                                                   ScheduledPhase(p), latest));
                 && reply.Answer?
                 && RecordsReply(r.phases[p].responses[a], reply.response, d.ids[a], ScheduledPhase(p),
                                 d.world.now(|prior|), d.world.latency(|prior|))
  {
    hide Transcript, CleanReturn, Aborted, Full, ScheduledPhase, PhaseName;
    PhasesAreScheduled(p);
    var ph := r.phases[p];
    assert PhaseRan(d, Transcript(r.phases[..p]), p, ph);
    var prior := Transcript(r.phases[..p]) + ph.responses[..a];
    assert Answered(d, prior, p, a, ph.responses[a]);
    var latest := Window(prior);
    var rest := prior[..|prior| - |latest|];
    assert AreLatest(prior, rest, latest);
    assert Outcome(d, prior, p, a)
           == d.invokers[d.ids[a]](|prior|, Prompt(d.cfg.topic, d.cfg.context, p / 8 + 1, ScheduledPhase(p), latest));
  }

  // ----- The runner -----

  /** The state after `rounds` complete rounds, the last of which reached this consensus. */
  ghost predicate RoundsRan(d: Debate, phases: seq<PhaseResult>, all: seq<Response>, rounds: nat,
                            consensus: Option<ConsensusResult>, earlyExit: bool)
    requires d.Valid()
  {
    && Underway(d, phases, all) && |phases| == 8 * rounds
    && (rounds > 0 ==> IsConsensus(RoundResponses(phases, rounds), consensus))
    && (rounds > 0 ==> earlyExit == Meets(d.cfg, consensus))
    && (rounds == 0 ==> !earlyExit && consensus == None)
    && NoRoundMet(d, phases, if earlyExit then rounds - 1 else rounds)
  }

  lemma RoundDone(d: Debate, before: seq<PhaseResult>, all0: seq<Response>, phases: seq<PhaseResult>,
                  all: seq<Response>, rounds: nat,
                  last: Option<ConsensusResult>, next: Option<ConsensusResult>)
    requires d.Valid() && RoundsRan(d, before, all0, rounds, last, false)
    requires before <= phases && |phases| == 8 * (rounds + 1) && Underway(d, phases, all)
    requires IsConsensus(Transcript(phases[|before|..]), next)
    ensures RoundsRan(d, phases, all, rounds + 1, next, Meets(d.cfg, next))
  {
    hide IsConsensus, Transcript, PhasesRan, Full;
    EarlierRoundsKept(d, before, phases, rounds + 1);
    assert phases[8 * rounds..8 * (rounds + 1)] == phases[|before|..];
    forall q, c | 1 <= q <= rounds + 1 && IsConsensus(RoundResponses(phases, q), c)
      ensures q <= rounds || Meets(d.cfg, c) == Meets(d.cfg, next)
      ensures q <= rounds ==> !Meets(d.cfg, c)
    {
      if q > rounds {
        OneConsensus(RoundResponses(phases, q), c, next);
      }
    }
  }

  method RunRounds(d: Debate) returns (r: DebateResult, err: Option<Error>)
    requires d.Valid()
    ensures RunKept(d, r, err)
  {
    hide RoundsRan, Underway, Stopped, IsConsensus, NoRoundMet;
    var phases: seq<PhaseResult>, all: seq<Response> := [], [];
    var lastConsensus: Option<ConsensusResult>, earlyExit, roundsCompleted := None, false, 0;
    var tick: nat := 1;
    var round := 1;
    NothingRan(d);
    while round <= d.cfg.maxRounds && !earlyExit
      invariant 1 <= round <= d.cfg.maxRounds + 1 && roundsCompleted == round - 1
      invariant RoundsRan(d, phases, all, roundsCompleted, lastConsensus, earlyExit)
      invariant |phases| == 8 * roundsCompleted && tick == RoundCheck(|phases|, |all|)
    {
      if d.world.cancelled(tick) {
        RoundsRanFacts(d, phases, all, roundsCompleted, lastConsensus, earlyExit);
        StoppedBetween(d, phases, all);
        r, err := AbortedResult(phases, |all|, |all|), Some(Cancelled);
        StoppedIsKept(d, phases, all, false, Cancelled);
        return;
      }
      tick := tick + 1;
      ghost var before, all0, oldConsensus := phases, all, lastConsensus;
      var roundResponses, failed;
      RoundsRanFacts(d, phases, all, roundsCompleted, lastConsensus, earlyExit);
      phases, all, roundResponses, tick, failed, err := RunRound(d, round, phases, all, tick);
      if err != None {
        StoppedIsKept(d, phases, all, failed, err.value);
        r := AbortedResult(phases, |all|, if failed then |all| + 1 else |all|);
        return;
      }
      lastConsensus := ComputeConsensus(roundResponses);
      RoundDone(d, before, all0, phases, all, roundsCompleted, oldConsensus, lastConsensus);
      roundsCompleted := round;
      if d.cfg.enableEarlyExit && lastConsensus != None && lastConsensus.value.confidence >= d.cfg.minConsensusScore {
        earlyExit := true;
      }
      round := round + 1;
    }
    RoundsRanFacts(d, phases, all, roundsCompleted, lastConsensus, earlyExit);
    var content := if lastConsensus == None then "" else lastConsensus.value.choice;
    r := DebateResult(phases, |all|, |all|, roundsCompleted, earlyExit, lastConsensus, content,
                      roundsCompleted > 0 && |phases| > 0);
    err := None;
    RoundsRanIsKept(d, phases, all, r);
  }

  lemma NothingRan(d: Debate)
    requires d.Valid()
    ensures RoundsRan(d, [], [], 0, None, false)
  {
  }

  lemma RoundsRanFacts(d: Debate, phases: seq<PhaseResult>, all: seq<Response>, rounds: nat,
                       consensus: Option<ConsensusResult>, earlyExit: bool)
    requires d.Valid() && RoundsRan(d, phases, all, rounds, consensus, earlyExit)
    ensures Underway(d, phases, all) && |phases| == 8 * rounds && (rounds == 0 ==> !earlyExit)
    ensures !earlyExit ==> NoRoundMet(d, phases, rounds)
  {
  }

  lemma StoppedIsKept(d: Debate, phases: seq<PhaseResult>, all: seq<Response>, failed: bool, e: Error)
    requires d.Valid() && Stopped(d, phases, all, failed, e) && |phases| <= 8 * d.cfg.maxRounds
    ensures RunKept(d, AbortedResult(phases, |all|, if failed then |all| + 1 else |all|), Some(e))
  {
    hide Aborted;
  }

  lemma RoundsRanIsKept(d: Debate, phases: seq<PhaseResult>, all: seq<Response>, r: DebateResult)
    requires d.Valid() && RoundsRan(d, phases, all, r.roundsCompleted, r.finalConsensus, r.earlyExit)
    requires r.phases == phases && r.totalResponses == r.totalInvocations == |all|
    requires 1 <= r.roundsCompleted <= d.cfg.maxRounds && (!r.earlyExit ==> r.roundsCompleted == d.cfg.maxRounds)
    requires r.content == (if r.finalConsensus == None then "" else r.finalConsensus.value.choice) && r.success
    ensures RunKept(d, r, None)
  {
    hide IsConsensus;
  }

  function AbortedResult(phases: seq<PhaseResult>, responses: nat, invocations: nat): DebateResult {
    DebateResult(phases, responses, invocations, 0, false, None, "", false)
  }

  lemma EarlierRoundsKept(d: Debate, before: seq<PhaseResult>, after: seq<PhaseResult>, round: nat)
    requires 1 <= round && |before| == 8 * (round - 1) && before <= after && |after| == 8 * round
    ensures forall q :: 1 <= q < round ==> RoundResponses(after, q) == RoundResponses(before, q)
  {
    forall q | 1 <= q < round ensures RoundResponses(after, q) == RoundResponses(before, q) {
      assert after[8 * (q - 1)..8 * q] == before[8 * (q - 1)..8 * q];
    }
  }

  /** One round: the eight phases in order. */
  method RunRound(d: Debate, round: nat, phases0: seq<PhaseResult>, all0: seq<Response>, tick0: nat)
    returns (phases: seq<PhaseResult>, all: seq<Response>, roundResponses: seq<Response>, tick: nat,
             failed: bool, err: Option<Error>)
    requires d.Valid() && 1 <= round && |phases0| == 8 * (round - 1) && Underway(d, phases0, all0)
    requires round <= d.cfg.maxRounds && NoRoundMet(d, phases0, round - 1)
    requires !d.world.cancelled(RoundCheck(|phases0|, |all0|)) && tick0 == PhaseCheck(|phases0|, |all0|)
    ensures phases0 <= phases && |phases| <= 8 * round
    ensures match err
            case None =>
              && |phases| == 8 * round && Underway(d, phases, all)
              && roundResponses == Transcript(phases[|phases0|..]) && tick == RoundCheck(|phases|, |all|)
            case Some(e) => Stopped(d, phases, all, failed, e)
  {
    hide Underway, Stopped, PhaseEnded, Transcript, NoRoundMet;
    phases, all, roundResponses, tick, failed, err := phases0, all0, [], tick0, false, None;
    ghost var ran: seq<PhaseResult> := [];
    TranscriptOfOneMore(ran, PhaseResult("", 0, []));
    for k := 0 to 8
      invariant phases == phases0 + ran && |ran| == k
      invariant Underway(d, phases, all) && roundResponses == Transcript(ran)
      invariant tick == (if k < 8 then PhaseCheck(|phases|, |all|) else RoundCheck(|phases|, |all|))
      invariant k < 8 ==> NoRoundMet(d, phases, round - 1)
      invariant k == 0 ==> !d.world.cancelled(RoundCheck(|phases|, |all|))
      invariant err == None
    {
      if d.world.cancelled(tick) {
        StoppedBetween(d, phases, all);
        failed, err := false, Some(Cancelled);
        return;
      }
      tick := tick + 1;
      var ph;
      ph, tick, failed, err := RunPhase(d, round, k, all, tick);
      PhaseDone(d, phases, all, ph, failed, err);
      TranscriptOfOneMore(ran, ph);
      assert phases0 + ran + [ph] == phases0 + (ran + [ph]);
      phases, all, roundResponses, ran := phases + [ph], all + ph.responses, roundResponses + ph.responses, ran + [ph];
      if err != None {
        return;
      }
    }
    assert phases[|phases0|..] == ran;
  }

  lemma TranscriptOfOneMore(phases: seq<PhaseResult>, ph: PhaseResult)
    ensures Transcript([]) == []
    ensures Transcript(phases + [ph]) == Transcript(phases) + ph.responses
  {
    assert (phases + [ph])[..|phases|] == phases;
  }

  /** One phase: every agent in sorted order, until one of them or the context stops it. */
  method RunPhase(d: Debate, round: nat, k: nat, prior: seq<Response>, tick0: nat)
    returns (ph: PhaseResult, tick: nat, failed: bool, err: Option<Error>)
    requires d.Valid() && 1 <= round && k < 8
    requires PhaseBegan(d, |prior|, 8 * (round - 1) + k) && tick0 == AgentCheck(8 * (round - 1) + k, |prior|)
    ensures tick == AgentCheck(8 * (round - 1) + k, |prior| + |ph.responses|) || err != None
    ensures PhaseEnded(d, prior, 8 * (round - 1) + k, ph, failed, err)
  {
    ghost var p := 8 * (round - 1) + k;
    var phase := PHASES[k];
    assert PhaseName(p) == phase && RoundOf(p) == round;
    var responses: seq<Response>, all := [], prior;
    tick := tick0;
    for a := 0 to |d.ids|
      invariant |responses| == a && all == prior + responses && tick == AgentCheck(p, |all|)
      invariant PhaseRan(d, prior, p, PhaseResult(phase, round, responses))
    {
      if d.world.cancelled(tick) {
        return PhaseResult(phase, round, responses), tick, false, Some(Cancelled);
      }
      tick := tick + 1;
      var id := d.ids[a];
      var n := |all|;
      var outcome := d.invokers[id](n, BuildPhasePrompt(d.cfg, phase, round, all));
      assert outcome == Outcome(d, prior + responses, p, a);
      match outcome {
        case Failure =>
          if d.world.cancelled(tick) {
            return PhaseResult(phase, round, responses), tick, true, Some(Cancelled);
          }
          return PhaseResult(phase, round, responses), tick, true, Some(InvokeFailed(id, round, phase));
        case NoAnswer =>
          return PhaseResult(phase, round, responses), tick, true, Some(NilResponse(id, round, phase));
        case Answer(response) =>
          var resp := Fill(response, id, phase, d.world.now(n), d.world.latency(n));
          assert Answered(d, prior + responses, p, a, resp);
          AnswerAdded(d, prior, p, PhaseResult(phase, round, responses), resp);
          responses, all := responses + [resp], all + [resp];
      }
    }
    return PhaseResult(phase, round, responses), tick, false, None;
  }

  lemma AnswerAdded(d: Debate, prior: seq<Response>, p: nat, ph: PhaseResult, r: Response)
    requires d.Valid() && PhaseRan(d, prior, p, ph) && |ph.responses| < |d.ids|
    requires Answered(d, prior + ph.responses, p, |ph.responses|, r)
    ensures PhaseRan(d, prior, p, ph.(responses := ph.responses + [r]))
  {
    var more := ph.responses + [r];
    forall a | 0 <= a < |more| ensures Answered(d, prior + more[..a], p, a, more[a]) {
      assert more[..a] == ph.responses[..a];
      assert ph.responses[..|ph.responses|] == ph.responses;
    }
  }

  class Protocol {
    const config: Config
    var agents: map<string, Invoker>

    constructor (config: Config)
      ensures this.config == config && agents == map[]
    {
      this.config := config;
      agents := map[];
    }

    method RegisterAgent(id: string, invoker: Option<Invoker>) returns (err: Option<Error>)
      modifies this
      ensures id == "" ==> err == Some(EmptyID) && agents == old(agents)
      ensures id != "" && invoker.None? ==> err == Some(NilInvoker) && agents == old(agents)
      ensures id != "" && invoker.Some? ==> err == None && agents == old(agents)[id := invoker.value]
    {
      if id == "" {
        return Some(EmptyID);
      }
      if invoker.None? {
        return Some(NilInvoker);
      }
      agents := agents[id := invoker.value];
      return None;
    }

    method Execute(world: World) returns (r: Option<DebateResult>, err: Option<Error>)
      ensures var d := Debate(config, Sorted(agents.Keys), agents, world);
              if world.cancelled(0) then r == None && err == Some(Cancelled)
              else if Trim(config.topic) == "" then r == None && err == Some(EmptyTopic)
              else if config.maxRounds <= 0 then r == None && err == Some(BadMaxRounds)
              else if agents == map[] then r == None && err == Some(NoAgentsConfigured)
              else d.Valid() && r != None && RunKept(d, r.value, err)
    {
      if world.cancelled(0) {
        return None, Some(Cancelled);
      }
      if Trim(config.topic) == "" {
        return None, Some(EmptyTopic);
      }
      if config.maxRounds <= 0 {
        return None, Some(BadMaxRounds);
      }
      var agentIDs := Sorted(agents.Keys);
      if |agentIDs| == 0 {
        return None, Some(NoAgentsConfigured);
      }
      var d := Debate(config, agentIDs, agents, world);
      var result, e := RunRounds(d);
      return Some(result), e;
    }
  }
}
