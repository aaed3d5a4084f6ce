/** The vote-tally system (voting/voting.go): stored votes, the four tallies that
    produce a winner, and what each promises about its Result. */
module Voting {
  import opened Wrappers
  import opened Ordering

  datatype Config = Config(
    minimumVotes: int,
    minimumConfidence: real,
    enableTieBreaking: bool,
    tieBreakMethod: string)

  const TIE_BREAK_BY_HIGHEST_CONFIDENCE := "highest_confidence"

  datatype Vote = Vote(agentID: string, choice: string, confidence: real)

  /** Scores are reals where confidences are summed and whole numbers where votes,
      points or wins are counted. */
  datatype Result<S> = Result(winningChoice: string, totalVotes: nat, tally: map<string, S>, confidence: real)

  function EmptyResult<S>(): Result<S> {
    Result("", 0, map[], 0.0)
  }

  /** A tally's Go return pair is (result, error); both can be set. */
  datatype Error = Cancelled | NilVote | NoCondorcetWinner | NoUnanimity

  // ----- Votes: what the tallies count -----

  ghost function Choices(votes: seq<Vote>): set<string> {
    set v | v in votes :: v.choice
  }

  ghost function CountOf(votes: seq<Vote>, c: string): nat {
    if votes == [] then 0 else
      CountOf(votes[..|votes| - 1], c) + if votes[|votes| - 1].choice == c then 1 else 0
  }

  ghost function ConfidenceOf(votes: seq<Vote>, c: string): real {
    if votes == [] then 0.0 else
      ConfidenceOf(votes[..|votes| - 1], c)
      + if votes[|votes| - 1].choice == c then votes[|votes| - 1].confidence else 0.0
  }

  /** The votes whose confidence reaches the configured minimum, in order. */
  ghost function Eligible(votes: seq<Vote>, minimum: real): seq<Vote> {
    if votes == [] then [] else
      Eligible(votes[..|votes| - 1], minimum)
      + if votes[|votes| - 1].confidence >= minimum then [votes[|votes| - 1]] else []
  }

  ghost function TotalConfidence(votes: seq<Vote>): real {
    if votes == [] then 0.0 else
      TotalConfidence(votes[..|votes| - 1]) + votes[|votes| - 1].confidence
  }

  ghost function Average(votes: seq<Vote>, c: string): real {
    if CountOf(votes, c) == 0 then 0.0 else ConfidenceOf(votes, c) / CountOf(votes, c) as real
  }

  ghost function CountTally(votes: seq<Vote>): map<string, int> {
    map c | c in Choices(votes) :: CountOf(votes, c)
  }

  ghost function ConfidenceTally(votes: seq<Vote>): map<string, real> {
    map c | c in Choices(votes) :: ConfidenceOf(votes, c)
  }

  function Get<S>(m: map<string, S>, k: string, zero: S): S {
    if k in m then m[k] else zero
  }

  /** Go's `m[k] += x`, where a missing key counts as zero. */
  function Add(m: map<string, int>, k: string, x: int): map<string, int> {
    m[k := Get(m, k, 0) + x]
  }

  function AddReal(m: map<string, real>, k: string, x: real): map<string, real> {
    m[k := Get(m, k, 0.0) + x]
  }

  /** w has the highest score, and no choice that sorts before w has the same score. */
  ghost predicate Tops(w: string, tally: map<string, real>) {
    w in tally
    && forall c :: c in tally && c != w ==> tally[c] < tally[w] || (tally[c] == tally[w] && Less(w, c))
  }

  // ----- What each tally promises -----

  ghost predicate CalculateResult(cfg: Config, votes: seq<Vote>, r: Result<real>) {
    if |votes| < cfg.minimumVotes then r == Result("", 0, map[], 0.0) else
      var counted := Eligible(votes, cfg.minimumConfidence);
      && r.totalVotes == |votes|
      && r.tally == ConfidenceTally(counted)
      && (if exists c :: c in r.tally && r.tally[c] > -1.0 then Tops(r.winningChoice, r.tally)
          else r.winningChoice == "")
      && r.confidence == Average(counted, r.winningChoice)
  }

  /** w is among the choices with the most votes. */
  ghost predicate IsLeader(votes: seq<Vote>, w: string) {
    w in Choices(votes) && forall c :: c in Choices(votes) ==> CountOf(votes, c) <= CountOf(votes, w)
  }

  ghost predicate BeatsByConfidence(votes: seq<Vote>, w: string, c: string) {
    Average(votes, c) < Average(votes, w) || (Average(votes, c) == Average(votes, w) && Less(w, c))
  }

  /** The confidence tie-break looks only at averages above -1, the scan's starting value. */
  ghost predicate TieBreakApplies(cfg: Config, votes: seq<Vote>) {
    && cfg.enableTieBreaking
    && cfg.tieBreakMethod == "highest_confidence"
    && exists c :: IsLeader(votes, c) && Average(votes, c) > -1.0
  }

  ghost predicate PluralityWinner(cfg: Config, votes: seq<Vote>, w: string) {
    && IsLeader(votes, w)
    && forall c :: IsLeader(votes, c) && c != w ==>
         if TieBreakApplies(cfg, votes) then BeatsByConfidence(votes, w, c) else Less(w, c)
  }

  ghost predicate PluralityResult(cfg: Config, votes: seq<Vote>, r: Result<int>) {
    if votes == [] then r == Result("", 0, map[], 0.0) else
      && r.totalVotes == |votes|
      && r.tally == CountTally(votes)
      && PluralityWinner(cfg, votes, r.winningChoice)
      && r.confidence == Average(votes, r.winningChoice)
  }

  ghost predicate Unanimous(votes: seq<Vote>, c: string) {
    votes != [] && forall v :: v in votes ==> v.choice == c
  }

  ghost predicate UnanimousResult(votes: seq<Vote>, r: Result<int>, err: Option<Error>) {
    && (votes == [] ==> r == Result("", 0, map[], 0.0) && err == None)
    && (votes != [] ==> r.totalVotes == |votes| && r.tally == CountTally(votes))
    && (forall c :: Unanimous(votes, c) ==> err == None && r.winningChoice == c && r.confidence == 1.0)
    && (votes != [] && (forall c :: !Unanimous(votes, c)) ==>
          err == Some(NoUnanimity) && r.winningChoice == "" && r.confidence == 0.0)
  }

  lemma AddedChoice(votes: seq<Vote>, v: Vote)
    ensures Choices(votes + [v]) == Choices(votes) + {v.choice}
  {
    var more := votes + [v];
    assert v in more;
    forall c | c in Choices(votes) ensures c in Choices(more) {
      var u :| u in votes && u.choice == c;
      assert u in more;
    }
  }

  lemma {:induction false} UncountedIsZero(votes: seq<Vote>, c: string)
    ensures c in Choices(votes) <==> CountOf(votes, c) > 0
    ensures c !in Choices(votes) ==> ConfidenceOf(votes, c) == 0.0
  {
    if votes != [] {
      var last := |votes| - 1;
      assert votes == votes[..last] + [votes[last]];
      AddedChoice(votes[..last], votes[last]);
      UncountedIsZero(votes[..last], c);
    }
  }

  lemma UnanimousIsOneChoice(votes: seq<Vote>, c: string)
    ensures Unanimous(votes, c) <==> Choices(votes) == {c}
  {
    forall v | v in votes ensures v.choice in Choices(votes) {
    }
    if Unanimous(votes, c) {
      assert votes[0] in votes;
    }
    if Choices(votes) == {c} {
      assert c in Choices(votes);
    }
  }

  /** The votes are unanimous exactly when they name one choice. */
  lemma SoleChoice(votes: seq<Vote>)
    requires votes != []
    ensures CountTally(votes).Keys == Choices(votes)
    ensures if |Choices(votes)| == 1 then forall c :: Unanimous(votes, c) <==> c in Choices(votes)
            else forall c :: !Unanimous(votes, c)
  {
    hide Unanimous;
    forall c ensures Unanimous(votes, c) <==> |Choices(votes)| == 1 && c in Choices(votes) {
      UnanimousIsOneChoice(votes, c);
      if |Choices(votes)| == 1 && c in Choices(votes) {
        assert |Choices(votes) - {c}| == 0;
      }
    }
  }

  ghost function CountedSoFar(votes: seq<Vote>): map<string, int> {
    if votes == [] then map[] else
      Add(CountedSoFar(votes[..|votes| - 1]), votes[|votes| - 1].choice, 1)
  }

  ghost function ConfidenceSoFar(votes: seq<Vote>): map<string, real> {
    if votes == [] then map[] else
      AddReal(ConfidenceSoFar(votes[..|votes| - 1]), votes[|votes| - 1].choice, votes[|votes| - 1].confidence)
  }

  lemma {:induction false} CountedAt(votes: seq<Vote>, c: string)
    ensures c in CountedSoFar(votes) <==> c in Choices(votes)
    ensures c in Choices(votes) ==> CountedSoFar(votes)[c] == CountOf(votes, c)
  {
    if votes != [] {
      var init, v := votes[..|votes| - 1], votes[|votes| - 1];
      assert votes == init + [v];
      CountedAt(init, c);
      AddedChoice(init, v);
      UncountedIsZero(init, c);
    }
  }

  lemma CountedAll(votes: seq<Vote>)
    ensures CountedSoFar(votes) == CountTally(votes)
  {
    hide CountedSoFar, Choices, CountOf;
    forall c {
      CountedAt(votes, c);
    }
  }

  lemma {:induction false} ConfidenceAt(votes: seq<Vote>, c: string)
    ensures c in ConfidenceSoFar(votes) <==> c in Choices(votes)
    ensures c in Choices(votes) ==> ConfidenceSoFar(votes)[c] == ConfidenceOf(votes, c)
  {
    if votes != [] {
      var init, v := votes[..|votes| - 1], votes[|votes| - 1];
      assert votes == init + [v];
      ConfidenceAt(init, c);
      AddedChoice(init, v);
      UncountedIsZero(init, c);
    }
  }

  lemma ConfidenceAll(votes: seq<Vote>)
    ensures ConfidenceSoFar(votes) == ConfidenceTally(votes)
  {
    hide ConfidenceSoFar, Choices, ConfidenceOf;
    forall c {
      ConfidenceAt(votes, c);
    }
  }

  // ----- The loops shared by the tallies -----

  /** The scan over sorted keys that Calculate makes. */
  method ScanForBest(tally: map<string, real>) returns (winner: string, best: real)
    ensures if exists c :: c in tally && tally[c] > -1.0 then Tops(winner, tally) && best == tally[winner]
            else winner == "" && best == -1.0
  {
    hide Less, Sorted, Ascending;
    var keys := Sorted(tally.Keys);
    assert forall c :: c in tally <==> c in keys;
    winner, best := "", -1.0;
    ghost var at := -1;
    for i := 0 to |keys|
      invariant -1 <= at < i
      invariant if at == -1 then winner == "" && best == -1.0 else winner == keys[at] && best == tally[winner] > -1.0
      invariant forall j :: 0 <= j < i ==> tally[keys[j]] <= best
      invariant forall j :: 0 <= j < at ==> tally[keys[j]] < best
    {
      if tally[keys[i]] > best {
        best := tally[keys[i]];
        winner := keys[i];
        at := i;
      }
    }
    if at >= 0 {
      FirstOfTheBest(keys, k => if k in tally then tally[k] else 0.0, at);
    }
  }

  method CountEligible(votes: seq<Vote>, minimum: real)
    returns (tally: map<string, real>, confSum: map<string, real>, confN: map<string, int>)
    ensures var counted := Eligible(votes, minimum);
            tally == confSum == ConfidenceTally(counted) && confN == CountTally(counted)
  {
    tally, confSum, confN := map[], map[], map[];
    ghost var counted: seq<Vote> := [];
    for i := 0 to |votes|
      invariant counted == Eligible(votes[..i], minimum)
      invariant tally == confSum == ConfidenceSoFar(counted) && confN == CountedSoFar(counted)
    {
      var v := votes[i];
      assert votes[..i + 1][..i] == votes[..i];
      if v.confidence < minimum {
        continue;
      }
      assert (counted + [v])[..|counted|] == counted;
      counted := counted + [v];
      tally := AddReal(tally, v.choice, v.confidence);
      confSum := AddReal(confSum, v.choice, v.confidence);
      confN := Add(confN, v.choice, 1);
    }
    assert votes[..|votes|] == votes;
    CountedAll(counted);
    ConfidenceAll(counted);
  }

  method CountVotes(votes: seq<Vote>) returns (tally: map<string, int>, confSum: map<string, real>)
    ensures tally == CountTally(votes) && confSum == ConfidenceTally(votes)
  {
    tally, confSum := map[], map[];
    for i := 0 to |votes|
      invariant tally == CountedSoFar(votes[..i]) && confSum == ConfidenceSoFar(votes[..i])
    {
      var v := votes[i];
      assert votes[..i + 1][..i] == votes[..i];
      tally := Add(tally, v.choice, 1);
      confSum := AddReal(confSum, v.choice, v.confidence);
    }
    assert votes[..|votes|] == votes;
    CountedAll(votes);
    ConfidenceAll(votes);
  }

  /** First plurality pass: the top score. */
  method TopScore(tally: map<string, int>, keys: seq<string>) returns (top: int)
    requires keys != [] && forall c :: c in keys ==> c in tally && tally[c] > -1
    ensures forall c :: c in keys ==> tally[c] <= top
    ensures exists c :: c in keys && tally[c] == top
  {
    top := -1;
    ghost var at := 0;
    for i := 0 to |keys|
      invariant forall j :: 0 <= j < i ==> tally[keys[j]] <= top
      invariant if i == 0 then top == -1 else 0 <= at < i && tally[keys[at]] == top
    {
      if tally[keys[i]] > top {
        top, at := tally[keys[i]], i;
      }
    }
    assert keys[at] in keys;
  }

  /** Second plurality pass: the keys that have the top score, still in order. */
  method AtScore(tally: map<string, int>, keys: seq<string>, top: int) returns (leaders: seq<string>)
    requires Ascending(keys) && forall c :: c in keys ==> c in tally
    ensures Ascending(leaders)
    ensures forall c :: c in leaders <==> c in keys && tally[c] == top
  {
    leaders := [];
    for i := 0 to |keys|
      invariant Ascending(leaders)
      invariant forall c :: c in leaders <==> c in keys[..i] && tally[c] == top
    {
      assert keys[..i + 1] == keys[..i] + [keys[i]];
      if tally[keys[i]] == top {
        assert forall c :: c in leaders ==> Less(c, keys[i]);
        leaders := leaders + [keys[i]];
      }
    }
    assert keys[..|keys|] == keys;
  }

  class WeightedVotingSystem {
    const config: Config
    var votes: seq<Vote>
    var totalSeen: nat
    var totalConfSeen: real
    /** Every vote accepted since construction; Reset does not forget them. */
    ghost var lifetime: seq<Vote>

    ghost predicate Valid()
      reads this
    {
      && totalSeen == |lifetime|
      && totalConfSeen == TotalConfidence(lifetime)
      && |votes| <= |lifetime|
      && votes == lifetime[|lifetime| - |votes|..]
    }

    constructor (config: Config)
      ensures Valid()
      ensures this.config == config && votes == [] && lifetime == []
    {
      this.config := config;
      votes, totalSeen, totalConfSeen, lifetime := [], 0, 0.0, [];
    }

    method AddVote(vote: Option<Vote>) returns (err: Option<Error>)
      requires Valid()
      modifies this
      ensures Valid()
      ensures vote == None ==> err == Some(NilVote) && votes == old(votes) && lifetime == old(lifetime)
      ensures vote != None ==>
                err == None && votes == old(votes) + [vote.value] && lifetime == old(lifetime) + [vote.value]
    {
      if vote == None {
        return Some(NilVote);
      }
      votes := votes + [vote.value];
      totalSeen := totalSeen + 1;
      totalConfSeen := totalConfSeen + vote.value.confidence;
      lifetime := lifetime + [vote.value];
      assert lifetime[..|lifetime| - 1] == old(lifetime);
      return None;
    }

    method Reset()
      requires Valid()
      modifies this
      ensures Valid()
      ensures votes == [] && lifetime == old(lifetime)
      ensures totalSeen == old(totalSeen) && totalConfSeen == old(totalConfSeen)
    {
      votes := [];
    }

    method GetStatistics() returns (totalVotes: nat, avgConfidence: real)
      requires Valid()
      ensures totalVotes == |lifetime|
      ensures avgConfidence * |lifetime| as real == TotalConfidence(lifetime)
      ensures lifetime == [] ==> avgConfidence == 0.0
    {
      totalVotes, avgConfidence := totalSeen, 0.0;
      if totalSeen > 0 {
        avgConfidence := totalConfSeen / totalSeen as real;
      }
    }

    method Calculate(cancelled: bool) returns (r: Option<Result<real>>, err: Option<Error>)
      ensures cancelled ==> r == None && err == Some(Cancelled)
      ensures !cancelled ==> r != None && err == None && CalculateResult(config, votes, r.value)
    {
      if cancelled {
        return None, Some(Cancelled);
      }
      if |votes| < config.minimumVotes {
        return Some(EmptyResult()), None;
      }
      var tally, confSum, confN := CountEligible(votes, config.minimumConfidence);
      var winner, best := ScanForBest(tally);
      var avgConf := 0.0;
      UncountedIsZero(Eligible(votes, config.minimumConfidence), winner);
      if Get(confN, winner, 0) > 0 {
        avgConf := Get(confSum, winner, 0.0) / confN[winner] as real;
      }
      r, err := Some(Result(winner, |votes|, tally, avgConf)), None;
    }

    method CalculatePlurality(cancelled: bool) returns (r: Option<Result<int>>, err: Option<Error>)
      ensures cancelled ==> r == None && err == Some(Cancelled)
      ensures !cancelled ==> r != None && err == None && PluralityResult(config, votes, r.value)
    {
      if cancelled {
        return None, Some(Cancelled);
      }
      if |votes| == 0 {
        return Some(EmptyResult()), None;
      }
      var tally, confSum := CountVotes(votes);
      var winner := MostVoted(tally, confSum);
      UncountedIsZero(votes, winner);
      r, err := Some(Result(winner, |votes|, tally, confSum[winner] / tally[winner] as real)), None;
    }

    method MostVoted(tally: map<string, int>, confSum: map<string, real>) returns (winner: string)
      requires votes != [] && tally == CountTally(votes) && confSum == ConfidenceTally(votes)
      ensures PluralityWinner(config, votes, winner)
    {
      var keys := Sorted(tally.Keys);
      assert forall c :: c in keys <==> c in Choices(votes);
      assert votes[0].choice in keys;
      var top := TopScore(tally, keys);
      var leaders := AtScore(tally, keys, top);
      assert forall c :: c in leaders <==> IsLeader(votes, c);
      assert leaders != [];
      winner := leaders[0];
      if |leaders| > 1 && config.enableTieBreaking
         && config.tieBreakMethod == TIE_BREAK_BY_HIGHEST_CONFIDENCE {
        winner := BreakTie(tally, confSum, leaders);
      }
    }

    method BreakTie(tally: map<string, int>, confSum: map<string, real>, leaders: seq<string>)
      returns (winner: string)
      requires tally == CountTally(votes) && confSum == ConfidenceTally(votes)
      requires Ascending(leaders) && leaders != [] && forall c :: c in leaders <==> IsLeader(votes, c)
      requires config.enableTieBreaking && config.tieBreakMethod == TIE_BREAK_BY_HIGHEST_CONFIDENCE
      ensures PluralityWinner(config, votes, winner)
    {
      winner := leaders[0];
      var bestConf := -1.0;
      ghost var at := -1;
      for i := 0 to |leaders|
        invariant -1 <= at < i && bestConf >= -1.0
        invariant winner == (if at == -1 then leaders[0] else leaders[at])
        invariant at >= 0 ==> bestConf == Average(votes, winner) > -1.0
        invariant at == -1 ==> bestConf == -1.0
        invariant forall j :: 0 <= j < i ==> Average(votes, leaders[j]) <= bestConf
        invariant forall j :: 0 <= j < at ==> Average(votes, leaders[j]) < bestConf
      {
        var k := leaders[i];
        assert IsLeader(votes, k);
        UncountedIsZero(votes, k);
        var c := confSum[k] / tally[k] as real;
        assert c == Average(votes, k);
        if c > bestConf {
          bestConf, winner, at := c, k, i;
        }
      }
    }

    method CalculateUnanimous(cancelled: bool) returns (r: Option<Result<int>>, err: Option<Error>)
      ensures cancelled ==> r == None && err == Some(Cancelled)
      ensures !cancelled ==> r != None && UnanimousResult(votes, r.value, err)
    {
      if cancelled {
        return None, Some(Cancelled);
      }
      if |votes| == 0 {
        return Some(EmptyResult()), None;
      }
      var tally: map<string, int> := map[];
      for i := 0 to |votes|
        invariant tally == CountedSoFar(votes[..i])
      {
        assert votes[..i + 1][..i] == votes[..i];
        tally := Add(tally, votes[i].choice, 1);
      }
      assert votes[..|votes|] == votes;
      CountedAll(votes);
      hide CountOf, CountedSoFar, Choices, Unanimous;
      SoleChoice(votes);
      if |tally.Keys| == 1 {
        var winner :| winner in tally.Keys;
        return Some(Result(winner, |votes|, tally, 1.0)), None;
      }
      return Some(Result("", |votes|, tally, 0.0)), Some(NoUnanimity);
    }
  }
}
