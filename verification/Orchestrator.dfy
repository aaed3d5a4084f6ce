/** ConductDebate of orchestrator/orchestrator.go as one sequential call: participants,
    rounds, metrics, session status and counters. Confidences are exact reals. */
module Orchestrator {
  import opened Wrappers
  import opened Fractions

  datatype Result<+T> = Ok(value: T) | Err(error: Error)

  datatype Error = NilRequest | EmptyTopic | InsufficientAgents(have: nat, need: int) | Cancelled

  datatype Agent = Agent(id: string, provider: string, model: string, score: real)

  datatype Config = Config(minAgentsPerDebate: int, defaultMaxRounds: int)

  const DEFAULT_CONFIG := Config(2, 3)

  datatype Request = Request(
    id: string, topic: string, maxRounds: int, minConsensus: real, preferredProviders: seq<string>)

  datatype Reply = Reply(content: string, latency: int)

  datatype AgentResponse = AgentResponse(agentID: string, content: string, confidence: real, latency: int)

  datatype Phase = Phase(round: nat, responses: seq<AgentResponse>)

  datatype Metrics = Metrics(totalTokens: int, totalLatency: int, providerCalls: nat, avgConfidence: real)

  datatype DebateResponse = DebateResponse(
    id: string,
    rounds: int,
    quality: real,
    achieved: bool,
    phases: seq<Phase>,
    participants: seq<string>,
    metrics: Metrics)

  // ----- Confidence -----

  /** scoreToConfidence: 0.05 more for every round, at most 1; no score counts as one half. */
  function Confidence(score: real, round: nat): real {
    var base := if score <= 0.0 then 0.5 else score;
    var adj := base + round as real / 20.0;
    if adj > 1.0 then 1.0 else adj
  }

  lemma ConfidenceGrows(score: real, round: nat)
    ensures 0.0 < Confidence(score, round) <= Confidence(score, round + 1) <= 1.0
  {
  }

  // ----- Participants -----

  function FromProviders(all: seq<Agent>, wanted: set<string>): seq<Agent> {
    if all == [] then [] else
      var last := all[|all| - 1];
      FromProviders(all[..|all| - 1], wanted) + if last.provider in wanted then [last] else []
  }

  ghost predicate AreParticipants(all: seq<Agent>, preferred: seq<string>, out: seq<Agent>) {
    var wanted := set p | p in preferred;
    out == if FromProviders(all, wanted) == [] then all else FromProviders(all, wanted)
  }

  method SelectParticipants(all: seq<Agent>, preferred: seq<string>) returns (out: seq<Agent>)
    ensures AreParticipants(all, preferred, out)
  {
    if |preferred| == 0 {
      NobodyWanted(all);
      assert (set p | p in preferred) == {};
      return all;
    }
    var want := {};
    for i := 0 to |preferred|
      invariant want == set p | p in preferred[..i]
    {
      assert preferred[..i + 1] == preferred[..i] + [preferred[i]];
      want := want + {preferred[i]};
    }
    assert preferred[..|preferred|] == preferred;
    out := [];
    for i := 0 to |all|
      invariant out == FromProviders(all[..i], want)
    {
      assert all[..i + 1][..i] == all[..i];
      if all[i].provider in want {
        out := out + [all[i]];
      }
    }
    assert all[..|all|] == all;
    if |out| == 0 {
      return all;
    }
  }

  lemma {:induction false} NobodyWanted(all: seq<Agent>)
    ensures FromProviders(all, {}) == []
  {
    if all != [] {
      NobodyWanted(all[..|all| - 1]);
    }
  }

  lemma {:induction false} FilteredMembers(all: seq<Agent>, wanted: set<string>)
    ensures forall a :: a in FromProviders(all, wanted) <==> a in all && a.provider in wanted
  {
    if all != [] {
      var init, last := all[..|all| - 1], all[|all| - 1];
      assert all == init + [last];
      FilteredMembers(init, wanted);
    }
  }

  /** Everybody takes part when no agent comes from a preferred provider; otherwise exactly
      the agents that do. So a debate lacks participants only when the pool is empty. */
  lemma ParticipantsAre(all: seq<Agent>, preferred: seq<string>, out: seq<Agent>)
    requires AreParticipants(all, preferred, out)
    ensures (forall a :: a in all ==> a.provider !in preferred) ==> out == all
    ensures (exists a :: a in all && a.provider in preferred) ==>
              forall a :: a in out <==> a in all && a.provider in preferred
    ensures out == [] <==> all == []
  {
    hide FromProviders;
    var wanted := set p | p in preferred;
    FilteredMembers(all, wanted);
    var chosen := FromProviders(all, wanted);
    assert chosen != [] ==> chosen[0] in all && chosen[0].provider in wanted;
    assert all != [] ==> all[0] in all;
  }

  // ----- Rounds -----

  /** What the invoker returns for the i-th participant in a round; an invoker error is
      already content here. */
  type Invoker = (nat, nat) -> Reply

  ghost function ResponseOf(participants: seq<Agent>, i: nat, round: nat, invoke: Invoker): AgentResponse
    requires i < |participants|
  {
    var a := participants[i];
    AgentResponse(a.id, invoke(i, round).content, Confidence(a.score, round), invoke(i, round).latency)
  }

  /** One response per participant, in order. */
  ghost predicate IsPhase(participants: seq<Agent>, round: nat, invoke: Invoker, p: Phase) {
    && p.round == round + 1 && |p.responses| == |participants|
    && forall i :: 0 <= i < |participants| ==> p.responses[i] == ResponseOf(participants, i, round, invoke)
  }

  ghost predicate ArePhases(participants: seq<Agent>, invoke: Invoker, phases: seq<Phase>) {
    forall r :: 0 <= r < |phases| ==> IsPhase(participants, r, invoke, phases[r])
  }

  /** Totals over a list of responses. */
  datatype Totals = Totals(tokens: int, latency: int, confidence: real, calls: nat)

  const NOTHING := Totals(0, 0, 0.0, 0)

  function Plus(t: Totals, r: AgentResponse): Totals {
    Totals(t.tokens + |r.content| / 4, t.latency + r.latency, t.confidence + r.confidence, t.calls + 1)
  }

  ghost function OfResponses(start: Totals, responses: seq<AgentResponse>): Totals {
    if responses == [] then start
    else Plus(OfResponses(start, responses[..|responses| - 1]), responses[|responses| - 1])
  }

  ghost function OfPhases(phases: seq<Phase>): Totals {
    if phases == [] then NOTHING
    else OfResponses(OfPhases(phases[..|phases| - 1]), phases[|phases| - 1].responses)
  }

  method ConductRound(participants: seq<Agent>, round: nat, invoke: Invoker, start: Totals)
    returns (p: Phase, totals: Totals)
    ensures IsPhase(participants, round, invoke, p)
    ensures totals == OfResponses(start, p.responses)
  {
    hide Confidence;
    var responses: seq<AgentResponse> := [];
    totals := start;
    for i := 0 to |participants|
      invariant |responses| == i && totals == OfResponses(start, responses)
      invariant forall k :: 0 <= k < i ==> responses[k] == ResponseOf(participants, k, round, invoke)
    {
      var agent := participants[i];
      var reply := invoke(i, round);
      var confidence := Confidence(agent.score, round);
      var r := AgentResponse(agent.id, reply.content, confidence, reply.latency);
      assert (responses + [r])[..i] == responses;
      responses := responses + [r];
      totals := Plus(totals, r);
    }
    p := Phase(round + 1, responses);
  }

  // ----- What the totals say -----

  lemma {:induction false} CallsOfResponses(start: Totals, responses: seq<AgentResponse>)
    ensures OfResponses(start, responses).calls == start.calls + |responses|
  {
    if responses != [] {
      CallsOfResponses(start, responses[..|responses| - 1]);
    }
  }

  lemma {:induction false} ConfidenceOfResponses(start: Totals, responses: seq<AgentResponse>)
    requires forall i :: 0 <= i < |responses| ==> 0.0 < responses[i].confidence <= 1.0
    ensures var c := OfResponses(start, responses).confidence;
            && start.confidence <= c <= start.confidence + |responses| as real
            && (responses != [] ==> start.confidence < c)
  {
    if responses != [] {
      ConfidenceOfResponses(start, responses[..|responses| - 1]);
    }
  }

  lemma {:induction false} TotalsOfPhases(participants: seq<Agent>, invoke: Invoker, phases: seq<Phase>)
    requires ArePhases(participants, invoke, phases)
    ensures OfPhases(phases).calls == |phases| * |participants|
    ensures 0.0 <= OfPhases(phases).confidence <= OfPhases(phases).calls as real
    ensures phases != [] && participants != [] ==> OfPhases(phases).confidence > 0.0
  {
    hide IsPhase, OfResponses;
    if phases != [] {
      var n := |phases| - 1;
      var before := OfPhases(phases[..n]);
      TotalsOfPhases(participants, invoke, phases[..n]);
      PhaseAdds(participants, n, invoke, phases[n], before);
    }
  }

  lemma PhaseAdds(participants: seq<Agent>, round: nat, invoke: Invoker, p: Phase, start: Totals)
    requires IsPhase(participants, round, invoke, p)
    ensures var t := OfResponses(start, p.responses);
            && t.calls == start.calls + |participants|
            && start.confidence <= t.confidence <= start.confidence + |participants| as real
            && (participants != [] ==> start.confidence < t.confidence)
  {
    hide OfResponses, Confidence;
    forall i | 0 <= i < |participants| ensures 0.0 < p.responses[i].confidence <= 1.0 {
      ConfidenceGrows(participants[i].score, round);
    }
    CallsOfResponses(start, p.responses);
    ConfidenceOfResponses(start, p.responses);
  }

  function Average(total: real, calls: int): real {
    if calls > 0 then total / calls as real else 0.0
  }

  lemma AverageBounds(total: real, calls: int)
    requires 0.0 < total <= calls as real
    ensures 0.0 < Average(total, calls) <= 1.0
  {
    Quotient(total, calls as real);
  }

  // ----- The orchestrator -----

  datatype Status = Pending | Running | Completed | StatusCancelled | StatusFailed

  class Session {
    const id: string
    var status: Status

    constructor (id: string)
      ensures this.id == id && status == Pending
    {
      this.id, status := id, Pending;
    }
  }

  function Normalised(cfg: Config): (r: Config)
    ensures r.minAgentsPerDebate >= 1 && r.defaultMaxRounds >= 1
    ensures cfg.minAgentsPerDebate >= 1 && cfg.defaultMaxRounds >= 1 ==> r == cfg
    ensures r.minAgentsPerDebate in {cfg.minAgentsPerDebate, 2} && r.defaultMaxRounds in {cfg.defaultMaxRounds, 3}
  {
    Config(
      if cfg.minAgentsPerDebate < 1 then DEFAULT_CONFIG.minAgentsPerDebate else cfg.minAgentsPerDebate,
      if cfg.defaultMaxRounds < 1 then DEFAULT_CONFIG.defaultMaxRounds else cfg.defaultMaxRounds)
  }

  /** resolveRequest; `generated` is the identifier made for a request without one. */
  function Resolved(cfg: Config, req: Request, generated: string): Request {
    req.(id := if req.id == "" then generated else req.id,
         maxRounds := if req.maxRounds <= 0 then cfg.defaultMaxRounds else req.maxRounds,
         minConsensus := if req.minConsensus <= 0.0 then 0.6 else req.minConsensus)
  }

  /** The response a debate of these participants must give. */
  ghost predicate IsResponse(req: Request, participants: seq<Agent>, invoke: Invoker, r: DebateResponse) {
    && r.id == req.id && r.rounds == req.maxRounds == |r.phases|
    && ArePhases(participants, invoke, r.phases)
    && |r.participants| == |participants|
    && (forall i :: 0 <= i < |participants| ==> r.participants[i] == participants[i].id)
    && var t := OfPhases(r.phases);
    && r.metrics == Metrics(t.tokens, t.latency, t.calls, r.quality)
    && r.quality == Average(t.confidence, t.calls)
    && r.achieved == (r.quality >= req.minConsensus)
  }

  class DebateOrchestrator {
    const cfg: Config
    var pool: seq<Agent>
    var sessions: map<string, Session>
    var totalCount: int
    var activeCount: int
    var successCount: int

    ghost predicate Valid()
      reads this
    {
      cfg.minAgentsPerDebate >= 1 && cfg.defaultMaxRounds >= 1
    }

    constructor (cfg: Config)
      ensures Valid() && this.cfg == Normalised(cfg) && pool == [] && sessions == map[]
      ensures totalCount == activeCount == successCount == 0
    {
      this.cfg := Normalised(cfg);
      pool, sessions := [], map[];
      totalCount, activeCount, successCount := 0, 0, 0;
    }

    /** `id` is the identifier made for the new agent. */
    method RegisterProvider(name: string, model: string, score: real, id: string) returns (ok: bool)
      requires Valid()
      modifies this
      ensures Valid()
      ensures ok == (name != "" && model != "" && 0.0 <= score <= 1.0)
      ensures pool == if ok then old(pool) + [Agent(id, name, model, score)] else old(pool)
      ensures sessions == old(sessions) && totalCount == old(totalCount)
      ensures activeCount == old(activeCount) && successCount == old(successCount)
    {
      if name == "" {
        return false;
      }
      if model == "" {
        return false;
      }
      if score < 0.0 || score > 1.0 {
        return false;
      }
      pool := pool + [Agent(id, name, model, score)];
      return true;
    }

    method CreateSession(id: string) returns (s: Session)
      modifies this`sessions
      ensures fresh(s) && s.id == id && s.status == Pending && sessions == old(sessions)[id := s]
    {
      s := new Session(id);
      sessions := sessions[id := s];
    }

    method CancelSession(id: string) returns (ok: bool)
      modifies sessions.Values
      ensures ok == (id in sessions)
      ensures ok ==> sessions[id].status == StatusCancelled
      ensures forall s :: s in sessions.Values && !(ok && s == sessions[id]) ==> unchanged(s)
    {
      if id !in sessions {
        return false;
      }
      sessions[id].status := StatusCancelled;
      return true;
    }

    /** cancelled(r) is the check before round r. */
    method ConductDebate(req: Option<Request>, generated: string, invoke: Invoker, cancelled: nat -> bool)
      returns (result: Result<DebateResponse>)
      requires Valid()
      modifies this`sessions, this`totalCount, this`activeCount, this`successCount
      ensures Valid() && activeCount == old(activeCount)
      ensures req == None ==> result == Err(NilRequest)
      ensures req.Some? && req.value.topic == "" ==> result == Err(EmptyTopic)
      ensures req == None || req.value.topic == "" ==>
                sessions == old(sessions) && totalCount == old(totalCount) && successCount == old(successCount)
      ensures req.Some? && req.value.topic != "" ==>
                var r := Resolved(cfg, req.value, generated);
                && totalCount == old(totalCount) + 1
                && successCount == old(successCount) + (if result.Ok? then 1 else 0)
                && r.id in sessions && fresh(sessions[r.id]) && sessions == old(sessions)[r.id := sessions[r.id]]
                && exists ps :: AreParticipants(pool, r.preferredProviders, ps)
                     && Outcome(r, ps, cfg.minAgentsPerDebate, invoke, cancelled, result, sessions[r.id].status)
    {
      hide AreParticipants, Outcome;
      if req == None {
        return Err(NilRequest);
      }
      if req.value.topic == "" {
        return Err(EmptyTopic);
      }
      var resolved := Resolved(cfg, req.value, generated);
      var session := CreateSession(resolved.id);
      totalCount := totalCount + 1;
      activeCount := activeCount + 1;
      session.status := Running;
      var participants := SelectParticipants(pool, resolved.preferredProviders);
      result := RunDebate(resolved, participants, invoke, cancelled, session);
      if result.Ok? {
        successCount := successCount + 1;
      }
      activeCount := activeCount - 1;
    }

    /** From the check on the participants to the filled response. */
    method RunDebate(req: Request, participants: seq<Agent>, invoke: Invoker, cancelled: nat -> bool, session: Session)
      returns (result: Result<DebateResponse>)
      requires Valid() && req.maxRounds > 0
      modifies session`status
      ensures Outcome(req, participants, cfg.minAgentsPerDebate, invoke, cancelled, result, session.status)
    {
      if |participants| < cfg.minAgentsPerDebate {
        session.status := StatusFailed;
        return Err(InsufficientAgents(|participants|, cfg.minAgentsPerDebate));
      }
      var phases: seq<Phase>, totals := [], NOTHING;
      for round := 0 to req.maxRounds
        invariant |phases| == round && ArePhases(participants, invoke, phases) && totals == OfPhases(phases)
        invariant forall r: nat :: r < round ==> !cancelled(r)
      {
        if cancelled(round) {
          session.status := StatusCancelled;
          return Err(Cancelled);
        }
        var p;
        p, totals := ConductRound(participants, round, invoke, totals);
        phases := phases + [p];
      }
      var response := MakeResponse(req, participants, invoke, phases, totals);
      session.status := Completed;
      return Ok(response);
    }
  }

  method MakeResponse(req: Request, participants: seq<Agent>, ghost invoke: Invoker, phases: seq<Phase>, totals: Totals)
    returns (r: DebateResponse)
    requires ArePhases(participants, invoke, phases) && |phases| == req.maxRounds && totals == OfPhases(phases)
    ensures IsResponse(req, participants, invoke, r)
  {
    hide ArePhases, OfPhases, Average;
    var avg := Average(totals.confidence, totals.calls);
    var ids: seq<string> := [];
    for i := 0 to |participants|
      invariant |ids| == i && forall k :: 0 <= k < i ==> ids[k] == participants[k].id
    {
      ids := ids + [participants[i].id];
    }
    r := DebateResponse(req.id, req.maxRounds, avg, avg >= req.minConsensus, phases, ids,
                        Metrics(totals.tokens, totals.latency, totals.calls, avg));
  }

  /** How a debate that was counted ends, and the status its session then has. */
  ghost predicate Outcome(req: Request, participants: seq<Agent>, need: int, invoke: Invoker, cancelled: nat -> bool,
                          result: Result<DebateResponse>, status: Status) {
    if |participants| < need then
      result == Err(InsufficientAgents(|participants|, need)) && status == StatusFailed
    else if exists r: nat :: r < req.maxRounds && cancelled(r) then
      result == Err(Cancelled) && status == StatusCancelled
    else
      result.Ok? && IsResponse(req, participants, invoke, result.value) && status == Completed
  }

  /** A successful debate calls every participant once a round and reports a quality in (0,1]. */
  lemma SuccessfulDebate(req: Request, participants: seq<Agent>, invoke: Invoker, r: DebateResponse)
    requires IsResponse(req, participants, invoke, r) && participants != [] && req.maxRounds > 0
    ensures r.metrics.providerCalls == req.maxRounds * |participants|
    ensures 0.0 < r.quality <= 1.0
  {
    hide ArePhases, OfPhases, Average;
    TotalsOfPhases(participants, invoke, r.phases);
    assert |r.phases| * |participants| > 0;
    AverageBounds(OfPhases(r.phases).confidence, OfPhases(r.phases).calls);
  }

  // ----- More rounds -----

  /** Each participant is at least as confident in the second list as in the first. */
  ghost predicate Raised(a: seq<AgentResponse>, b: seq<AgentResponse>) {
    |a| == |b| && forall i :: 0 <= i < |a| ==> a[i].confidence <= b[i].confidence
  }

  lemma {:induction false} RaisedTotals(a: seq<AgentResponse>, b: seq<AgentResponse>, s: Totals, t: Totals)
    requires Raised(a, b)
    ensures OfResponses(s, a).confidence - s.confidence <= OfResponses(t, b).confidence - t.confidence
  {
    if a != [] {
      RaisedTotals(a[..|a| - 1], b[..|b| - 1], s, t);
    }
  }

  ghost function RoundConfidence(p: Phase): real {
    OfResponses(NOTHING, p.responses).confidence
  }

  lemma LaterRoundsRaised(participants: seq<Agent>, invoke: Invoker, n: nat, p: Phase, q: Phase)
    requires IsPhase(participants, n, invoke, p) && IsPhase(participants, n + 1, invoke, q)
    ensures RoundConfidence(p) <= RoundConfidence(q)
  {
    forall i | 0 <= i < |participants| ensures p.responses[i].confidence <= q.responses[i].confidence {
      ConfidenceGrows(participants[i].score, n);
    }
    RaisedTotals(p.responses, q.responses, NOTHING, NOTHING);
  }

  /** The confidence gathered in n rounds is at most n times that of the last one. */
  lemma {:induction false} LastRoundIsBest(participants: seq<Agent>, invoke: Invoker, phases: seq<Phase>)
    requires ArePhases(participants, invoke, phases) && phases != []
    ensures OfPhases(phases).confidence <= |phases| as real * RoundConfidence(phases[|phases| - 1])
    decreases |phases|
  {
    hide OfResponses;
    var n := |phases| - 1;
    var p := phases[n];
    RaisedTotals(p.responses, p.responses, OfPhases(phases[..n]), NOTHING);
    RaisedTotals(p.responses, p.responses, NOTHING, OfPhases(phases[..n]));
    if n > 0 {
      LastRoundIsBest(participants, invoke, phases[..n]);
      LaterRoundsRaised(participants, invoke, n - 1, phases[n - 1], p);
    }
  }

  /** With the same invoker, one more round never lowers the quality score. */
  lemma MoreRoundsNeverLowerQuality(req: Request, participants: seq<Agent>, invoke: Invoker, r: DebateResponse,
                                    s: DebateResponse)
    requires participants != [] && req.maxRounds > 0
    requires IsResponse(req, participants, invoke, r)
    requires IsResponse(req.(maxRounds := req.maxRounds + 1), participants, invoke, s)
    ensures r.quality <= s.quality
  {
    hide OfResponses, Average;
    var n, k := req.maxRounds, |participants|;
    SamePhases(participants, invoke, r.phases, s.phases[..n]);
    TotalsOfPhases(participants, invoke, r.phases);
    TotalsOfPhases(participants, invoke, s.phases);
    LastRoundIsBest(participants, invoke, r.phases);
    var p, q := r.phases[n - 1], s.phases[n];
    LaterRoundsRaised(participants, invoke, n - 1, p, q);
    RaisedTotals(q.responses, q.responses, NOTHING, OfPhases(r.phases));
    AverageGrows(OfPhases(r.phases).confidence, RoundConfidence(q), OfPhases(s.phases).confidence, n, k);
  }

  lemma SamePhases(participants: seq<Agent>, invoke: Invoker, a: seq<Phase>, b: seq<Phase>)
    requires ArePhases(participants, invoke, a) && ArePhases(participants, invoke, b) && |a| == |b|
    ensures a == b
  {
    forall i | 0 <= i < |a| ensures a[i] == b[i] {
      assert IsPhase(participants, i, invoke, a[i]) && IsPhase(participants, i, invoke, b[i]);
      assert a[i].responses == b[i].responses;
    }
  }

  lemma AverageGrows(before: real, last: real, after: real, n: nat, k: nat)
    requires n > 0 && k > 0 && before <= n as real * last && before + last <= after
    ensures Average(before, n * k) <= Average(after, (n + 1) * k)
  {
    var x, y := n as real, k as real;
    assert n * k > 0 && (n + 1) * k > 0;
    assert (n * k) as real == x * y && ((n + 1) * k) as real == (x + 1.0) * y;
    var a, b := Average(before, n * k), Average(after, (n + 1) * k);
    assert a * (x * y) == before && b * ((x + 1.0) * y) == after;
    assert a * (x * y) <= x * last;
    assert x * (a * y) <= x * last;
    assert a * y <= last;
    assert a * ((x + 1.0) * y) == before + a * y <= after;
  }

  // ----- The response read off the request and the answers -----

  ghost function AllResponses(phases: seq<Phase>): seq<AgentResponse> {
    if phases == [] then [] else AllResponses(phases[..|phases| - 1]) + phases[|phases| - 1].responses
  }

  /** The sum of a quarter of every content's length, rounded down. */
  ghost function TokenSum(responses: seq<AgentResponse>): int {
    if responses == [] then 0 else |responses[0].content| / 4 + TokenSum(responses[1..])
  }

  ghost function LatencySum(responses: seq<AgentResponse>): int {
    if responses == [] then 0 else responses[0].latency + LatencySum(responses[1..])
  }

  ghost function ConfidenceSum(responses: seq<AgentResponse>): real {
    if responses == [] then 0.0 else responses[0].confidence + ConfidenceSum(responses[1..])
  }

  lemma {:induction false} SumsOfConcat(a: seq<AgentResponse>, b: seq<AgentResponse>)
    ensures TokenSum(a + b) == TokenSum(a) + TokenSum(b)
    ensures LatencySum(a + b) == LatencySum(a) + LatencySum(b)
    ensures ConfidenceSum(a + b) == ConfidenceSum(a) + ConfidenceSum(b)
  {
    if a == [] {
      assert a + b == b;
    } else {
      assert (a + b)[1..] == a[1..] + b;
      SumsOfConcat(a[1..], b);
    }
  }

  lemma {:induction false} ResponsesAreSummed(start: Totals, responses: seq<AgentResponse>)
    ensures OfResponses(start, responses)
            == Totals(start.tokens + TokenSum(responses), start.latency + LatencySum(responses),
                      start.confidence + ConfidenceSum(responses), start.calls + |responses|)
  {
    if responses != [] {
      var init, last := responses[..|responses| - 1], [responses[|responses| - 1]];
      ResponsesAreSummed(start, init);
      assert responses == init + last && last[1..] == [];
      SumsOfConcat(init, last);
    }
  }

  lemma {:induction false} PhasesAreSummed(phases: seq<Phase>)
    ensures var all := AllResponses(phases);
            OfPhases(phases) == Totals(TokenSum(all), LatencySum(all), ConfidenceSum(all), |all|)
  {
    hide Plus;
    if phases != [] {
      var init, last := phases[..|phases| - 1], phases[|phases| - 1];
      PhasesAreSummed(init);
      ResponsesAreSummed(OfPhases(init), last.responses);
      SumsOfConcat(AllResponses(init), last.responses);
    }
  }

  /** The metrics are the sums over all responses, and the quality is their mean confidence. */
  lemma MetricsAreSums(req: Request, participants: seq<Agent>, invoke: Invoker, r: DebateResponse)
    requires IsResponse(req, participants, invoke, r)
    ensures var all := AllResponses(r.phases);
            && r.metrics.totalTokens == TokenSum(all) && r.metrics.totalLatency == LatencySum(all)
            && r.metrics.providerCalls == |all| && r.metrics.avgConfidence == r.quality
            && (all != [] ==> r.quality * |all| as real == ConfidenceSum(all))
  {
    hide ArePhases, OfPhases;
    PhasesAreSummed(r.phases);
  }

  /** The confidence of the first round: the score, or one half without one. */
  ghost function FirstConfidence(a: Agent): real {
    if a.score <= 0.0 then 0.5 else if a.score <= 1.0 then a.score else 1.0
  }

  /** In every round, each participant answers in its place, under its own ID. Its confidence starts
      with its score and grows by one twentieth a round up to 1. */
  lemma ConfidencePerRound(req: Request, participants: seq<Agent>, invoke: Invoker, r: DebateResponse, k: nat, i: nat)
    requires IsResponse(req, participants, invoke, r) && k < |r.phases| && i < |participants|
    ensures r.phases[k].round == k + 1 && |r.phases[k].responses| == |participants|
    ensures var answer, reply := r.phases[k].responses[i], invoke(i, k);
            && answer.agentID == participants[i].id
            && answer.content == reply.content && answer.latency == reply.latency
    ensures k == 0 ==> r.phases[k].responses[i].confidence == FirstConfidence(participants[i])
    ensures k > 0 ==>
              var last := r.phases[k - 1].responses[i].confidence;
              r.phases[k].responses[i].confidence == if last + 0.05 <= 1.0 then last + 0.05 else 1.0
  {
    assert IsPhase(participants, k, invoke, r.phases[k]);
    if k > 0 {
      assert IsPhase(participants, k - 1, invoke, r.phases[k - 1]);
    }
  }

  /** A participant with a higher positive score is never less confident. */
  lemma HigherScoreMoreConfident(req: Request, participants: seq<Agent>, invoke: Invoker, r: DebateResponse, k: nat,
                                 i: nat, j: nat)
    requires IsResponse(req, participants, invoke, r) && k < |r.phases| && i < |participants| && j < |participants|
    requires 0.0 < participants[i].score <= participants[j].score
    ensures r.phases[k].responses[i].confidence <= r.phases[k].responses[j].confidence
  {
    assert IsPhase(participants, k, invoke, r.phases[k]);
  }

  ghost function ScoreSum(participants: seq<Agent>): real {
    if participants == [] then 0.0 else FirstConfidence(participants[0]) + ScoreSum(participants[1..])
  }

  lemma {:induction false} ScoresAreSummed(participants: seq<Agent>, responses: seq<AgentResponse>)
    requires |responses| == |participants|
    requires forall i :: 0 <= i < |responses| ==> responses[i].confidence == FirstConfidence(participants[i])
    ensures ConfidenceSum(responses) == ScoreSum(participants)
  {
    if responses != [] {
      ScoresAreSummed(participants[1..], responses[1..]);
    }
  }

  lemma OneRoundResponses(req: Request, participants: seq<Agent>, invoke: Invoker, r: DebateResponse)
    requires IsResponse(req, participants, invoke, r) && req.maxRounds == 1
    ensures |AllResponses(r.phases)| == |participants|
    ensures ConfidenceSum(AllResponses(r.phases)) == ScoreSum(participants)
  {
    var first := r.phases[0].responses;
    assert IsPhase(participants, 0, invoke, r.phases[0]);
    hide IsResponse, ConfidenceSum, ScoreSum, OfPhases, ArePhases;
    assert AllResponses(r.phases) == first by {
      assert AllResponses(r.phases[..0]) == [];
    }
    ScoresAreSummed(participants, first);
  }

  /** The quality of a one-round debate is the mean of its participants' scores. */
  lemma OneRoundQuality(req: Request, participants: seq<Agent>, invoke: Invoker, r: DebateResponse)
    requires IsResponse(req, participants, invoke, r) && req.maxRounds == 1 && participants != []
    ensures r.quality * |participants| as real == ScoreSum(participants)
  {
    hide *;
    OneRoundResponses(req, participants, invoke, r);
    MetricsAreSums(req, participants, invoke, r);
  }

  /** A request's own identifier, rounds and threshold count when given; otherwise the generated
      identifier, the configured number of rounds and 0.6 do. */
  lemma RequestDefaults(cfg: Config, req: Request, generated: string, participants: seq<Agent>, invoke: Invoker,
                        r: DebateResponse)
    requires IsResponse(Resolved(cfg, req, generated), participants, invoke, r)
    ensures r.id == if req.id != "" then req.id else generated
    ensures r.rounds == |r.phases| == if req.maxRounds > 0 then req.maxRounds else cfg.defaultMaxRounds
    ensures r.achieved <==> r.quality >= if req.minConsensus > 0.0 then req.minConsensus else 0.6
    ensures Resolved(cfg, req, generated).preferredProviders == req.preferredProviders
  {
    hide ArePhases, OfPhases, Average;
  }
}
