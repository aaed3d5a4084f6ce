/** The contract of Execute (protocol/protocol.go) pins the run: two results that keep it in
    the same world are equal. */
module ProtocolRuns {
  import opened Wrappers
  import opened Consensus
  import opened Protocol

  lemma {:induction false} SameResponses(d: Debate, prior: seq<Response>, p: nat, x: PhaseResult,
                                         y: PhaseResult, n: nat)
    requires d.Valid() && PhaseRan(d, prior, p, x) && PhaseRan(d, prior, p, y)
    requires n <= |x.responses| && n <= |y.responses|
    ensures x.responses[..n] == y.responses[..n]
  {
    hide Answered;
    if n > 0 {
      SameResponses(d, prior, p, x, y, n - 1);
      AnsweredAt(d, prior, p, x, n - 1);
      AnsweredAt(d, prior, p, y, n - 1);
      assert x.responses[..n] == x.responses[..n - 1] + [x.responses[n - 1]];
      assert y.responses[..n] == y.responses[..n - 1] + [y.responses[n - 1]];
    }
  }

  lemma {:induction false} SameFullPhases(d: Debate, xs: seq<PhaseResult>, ys: seq<PhaseResult>, m: nat)
    requires d.Valid() && PhasesRan(d, xs) && PhasesRan(d, ys)
    requires m <= |xs| && m <= |ys| && Full(d, xs, m) && Full(d, ys, m)
    ensures xs[..m] == ys[..m]
  {
    hide PhaseRan, Transcript, Answered;
    if m > 0 {
      SameFullPhases(d, xs, ys, m - 1);
      assert PhaseRan(d, Transcript(xs[..m - 1]), m - 1, xs[m - 1]);
      assert PhaseRan(d, Transcript(ys[..m - 1]), m - 1, ys[m - 1]);
      SamePhase(d, Transcript(xs[..m - 1]), m - 1, xs[m - 1], ys[m - 1]);
      assert xs[..m] == xs[..m - 1] + [xs[m - 1]] && ys[..m] == ys[..m - 1] + [ys[m - 1]];
    }
  }

  lemma SamePhase(d: Debate, prior: seq<Response>, p: nat, x: PhaseResult, y: PhaseResult)
    requires d.Valid() && PhaseRan(d, prior, p, x) && PhaseRan(d, prior, p, y)
    requires |x.responses| == |y.responses|
    ensures x == y
  {
    SameResponses(d, prior, p, x, y, |x.responses|);
    assert x.responses[..|x.responses|] == x.responses && y.responses[..|y.responses|] == y.responses;
  }

  lemma AnsweredAt(d: Debate, prior: seq<Response>, p: nat, ph: PhaseResult, a: nat)
    requires d.Valid() && PhaseRan(d, prior, p, ph) && a < |ph.responses|
    ensures Answered(d, prior + ph.responses[..a], p, a, ph.responses[a])
  {
  }

  lemma SameRound(xs: seq<PhaseResult>, ys: seq<PhaseResult>, q: nat)
    requires |xs| <= |ys| && xs == ys[..|xs|] && 1 <= q && 8 * q <= |xs|
    ensures RoundResponses(xs, q) == RoundResponses(ys, q)
  {
    assert xs[8 * (q - 1)..8 * q] == ys[8 * (q - 1)..8 * q];
  }

  /** Where a run with a partial last phase stopped, no other run got an answer. */
  lemma NoAnswerWhereItStopped(d: Debate, r: DebateResult, e: Option<Error>, ph: PhaseResult)
    requires d.Valid() && RunKept(d, r, e) && LastIsPartial(d, r.phases)
    requires PhaseRan(d, Transcript(r.phases[..|r.phases| - 1]), |r.phases| - 1, ph)
    ensures |ph.responses| <= |r.phases[|r.phases| - 1].responses|
  {
    var last := |r.phases| - 1;
    var prior, mine := Transcript(r.phases[..last]), r.phases[last];
    var a := |mine.responses|;
    assert PhaseRan(d, prior, last, mine);
    assert mine.responses[..a] == mine.responses;
    assert Transcript(r.phases) == prior + mine.responses;
    if a < |ph.responses| {
      AnsweredAt(d, prior, last, ph, a);
      SameResponses(d, prior, last, mine, ph, a);
    }
  }

  /** A run whose phases are all full does not stop where another run went on. */
  lemma StoppedWhereOthersContinued(d: Debate, r: DebateResult, e: Option<Error>, s: DebateResult, f: Option<Error>)
    requires d.Valid() && RunKept(d, r, e) && RunKept(d, s, f)
    requires Full(d, r.phases, |r.phases|) && |r.phases| <= |s.phases|
    requires r.phases == s.phases[..|r.phases|]
    ensures |r.phases| == |s.phases|
  {
    hide IsConsensus, PhaseName, Outcome, Answered;
    var m := |r.phases|;
    if m < |s.phases| {
      assert PhaseRan(d, Transcript(s.phases[..m]), m, s.phases[m]);
      assert PhaseBegan(d, r.totalResponses, m);
      if e == None && r.earlyExit {
        SameRound(r.phases, s.phases, r.roundsCompleted);
      }
    }
  }

  /** After the same full phases, the shorter run's last phase is the other run's as well. */
  lemma SameLastPhase(d: Debate, r: DebateResult, e: Option<Error>, s: DebateResult, f: Option<Error>)
    requires d.Valid() && RunKept(d, r, e) && RunKept(d, s, f)
    requires 0 < |r.phases| <= |s.phases|
    ensures r.phases == s.phases[..|r.phases|]
  {
    hide PhaseRan, CleanReturn, Aborted, PhaseBegan, Transcript, Answered, IsConsensus, Meets, NoRoundMet;
    var last := |r.phases| - 1;
    SameFullPhases(d, r.phases, s.phases, last);
    var prior := Transcript(r.phases[..last]);
    var mine, other := r.phases[last], s.phases[last];
    assert PhaseRan(d, prior, last, mine) && PhaseRan(d, prior, last, other);
    AtMostEveryAgent(d, prior, last, mine);
    AtMostEveryAgent(d, prior, last, other);
    if LastIsPartial(d, r.phases) {
      NoAnswerWhereItStopped(d, r, e, other);
    }
    if |other.responses| < |d.ids| {
      assert LastIsPartial(d, s.phases) && |s.phases| == last + 1;
      NoAnswerWhereItStopped(d, s, f, mine);
    }
    SamePhase(d, prior, last, mine, other);
    assert r.phases == r.phases[..last] + [mine] && s.phases[..last + 1] == s.phases[..last] + [other];
  }

  lemma SamePhases(d: Debate, r: DebateResult, e: Option<Error>, s: DebateResult, f: Option<Error>)
    requires d.Valid() && RunKept(d, r, e) && RunKept(d, s, f)
    requires |r.phases| <= |s.phases|
    ensures r.phases == s.phases
  {
    hide PhaseRan, CleanReturn, Aborted, PhaseBegan, Transcript;
    var m := |r.phases|;
    if m > 0 {
      SameLastPhase(d, r, e, s, f);
    }
    if Full(d, r.phases, m) {
      StoppedWhereOthersContinued(d, r, e, s, f);
    }
    assert s.phases[..|s.phases|] == s.phases;
  }

  lemma AtMostEveryAgent(d: Debate, prior: seq<Response>, p: nat, ph: PhaseResult)
    requires d.Valid() && PhaseRan(d, prior, p, ph)
    ensures |ph.responses| <= |d.ids|
  {
  }

  /** The same phases end the same way. */
  lemma SameEnding(d: Debate, r: DebateResult, e: Option<Error>, s: DebateResult, f: Option<Error>)
    requires d.Valid() && RunKept(d, r, e) && RunKept(d, s, f) && r.phases == s.phases
    ensures r == s && e == f
  {
    hide IsConsensus, PhasesRan, Transcript;
    CleanOrNot(d, r, e, s, f);
    if e == None && f == None {
      OneConsensus(RoundResponses(r.phases, r.roundsCompleted), r.finalConsensus, s.finalConsensus);
    }
  }

  lemma CleanOrNot(d: Debate, r: DebateResult, e: Option<Error>, s: DebateResult, f: Option<Error>)
    requires d.Valid() && RunKept(d, r, e) && RunKept(d, s, f) && r.phases == s.phases
    ensures e == None <==> f == None
  {
    hide IsConsensus, PhasesRan, Transcript;
  }

  /** What Execute returns is determined by the invokers' answers, the clock and the
      cancellation: its contract admits one result. */
  lemma OneRun(d: Debate, r: DebateResult, e: Option<Error>, s: DebateResult, f: Option<Error>)
    requires d.Valid() && RunKept(d, r, e) && RunKept(d, s, f)
    ensures r == s && e == f
  {
    hide RunKept;
    if |r.phases| <= |s.phases| {
      SamePhases(d, r, e, s, f);
    } else {
      SamePhases(d, s, f, r, e);
    }
    SameEnding(d, r, e, s, f);
  }
}
