/** The two tallies over ballots (voting/voting.go): Borda count and Condorcet. */
module Ballots {
  import opened Wrappers
  import opened Fractions
  import opened Ordering
  import opened Sums
  import opened Voting

  /** Voter to ballot; a ballot lists choices, most preferred first. */
  type Rankings = map<string, seq<string>>

  ghost function Ballot(rankings: Rankings, voter: string): seq<string> {
    if voter in rankings then rankings[voter] else []
  }

  ghost function Listed(rankings: Rankings, voters: set<string>): set<string> {
    set voter, c | voter in voters && c in Ballot(rankings, voter) :: c
  }

  /** Every choice that some ballot lists. */
  ghost function Universe(rankings: Rankings): set<string> {
    Listed(rankings, rankings.Keys)
  }

  ghost function RankedAmong(rankings: Rankings, voters: set<string>): set<string> {
    set voter | voter in voters && Ballot(rankings, voter) != []
  }

  /** The voters who ranked anything. */
  ghost function Turnout(rankings: Rankings): set<string> {
    RankedAmong(rankings, rankings.Keys)
  }

  lemma OneMoreRanked(rankings: Rankings, voters: set<string>, voter: string)
    requires voter !in voters
    ensures |RankedAmong(rankings, voters + {voter})|
            == |RankedAmong(rankings, voters)| + if Ballot(rankings, voter) == [] then 0 else 1
  {
    assert RankedAmong(rankings, voters + {voter})
           == RankedAmong(rankings, voters) + if Ballot(rankings, voter) == [] then {} else {voter};
  }

  // ----- Borda -----

  /** The points one ballot gives: n-1 for the first place, 0 for the last. */
  ghost function Points(ballot: seq<string>, c: string): nat {
    if ballot == [] then 0 else
      (if ballot[0] == c then |ballot| - 1 else 0) + Points(ballot[1..], c)
  }

  ghost function ScoreFrom(rankings: Rankings, voters: set<string>, c: string): int {
    Sum(voters, voter => Points(Ballot(rankings, voter), c))
  }

  ghost function BordaScore(rankings: Rankings, c: string): int {
    ScoreFrom(rankings, rankings.Keys, c)
  }

  ghost function MostPoints(ballot: seq<string>): nat {
    if ballot == [] then 0 else |ballot| - 1
  }

  ghost function MaxScoreFrom(rankings: Rankings, voters: set<string>): int {
    Sum(voters, voter => MostPoints(Ballot(rankings, voter)))
  }

  ghost function MaxBordaScore(rankings: Rankings): int {
    MaxScoreFrom(rankings, rankings.Keys)
  }

  /** w has the highest Borda score, and no choice that sorts before w has the same score. */
  ghost predicate BordaWinner(rankings: Rankings, w: string) {
    && w in Universe(rankings)
    && forall c :: c in Universe(rankings) && c != w ==>
         || BordaScore(rankings, c) < BordaScore(rankings, w)
         || (BordaScore(rankings, c) == BordaScore(rankings, w) && Less(w, c))
  }

  ghost predicate BordaResult(rankings: Rankings, r: Result<int>) {
    if Turnout(rankings) == {} then r == Result("", 0, map[], 0.0) else
      && r.totalVotes == |Turnout(rankings)|
      && r.tally.Keys == Universe(rankings)
      && (forall c :: c in r.tally ==> r.tally[c] == BordaScore(rankings, c))
      && BordaWinner(rankings, r.winningChoice)
      && r.confidence == Ratio(BordaScore(rankings, r.winningChoice), MaxBordaScore(rankings))
  }

  lemma {:induction false} UnlistedGetsNoPoints(ballot: seq<string>, c: string)
    requires c !in ballot
    ensures Points(ballot, c) == 0
  {
    if ballot != [] {
      UnlistedGetsNoPoints(ballot[1..], c);
    }
  }

  lemma {:induction false} PointsAtMost(ballot: seq<string>, c: string)
    requires forall i, j :: 0 <= i < j < |ballot| ==> ballot[i] != ballot[j]
    ensures Points(ballot, c) <= MostPoints(ballot)
    ensures Points(ballot, c) == MostPoints(ballot) ==> |ballot| <= 1 || ballot[0] == c
  {
    if ballot != [] {
      if ballot[0] == c {
        UnlistedGetsNoPoints(ballot[1..], c);
      } else {
        PointsAtMost(ballot[1..], c);
      }
    }
  }

  method ScoreBallot(tally: map<string, int>, ranked: seq<string>) returns (scored: map<string, int>)
    ensures ScoredBallot(tally, ranked, scored)
  {
    scored := tally;
    for i := 0 to |ranked|
      invariant forall c :: c in scored <==> c in tally || c in ranked[..i]
      invariant forall c :: Get(scored, c, 0) + Points(ranked[i..], c) == Get(tally, c, 0) + Points(ranked, c)
    {
      ghost var before := scored;
      scored := Add(scored, ranked[i], |ranked| - 1 - i);
      assert ranked[i..][1..] == ranked[i + 1..];
      assert ranked[..i + 1] == ranked[..i] + [ranked[i]];
      forall c ensures Get(scored, c, 0) + Points(ranked[i + 1..], c) == Get(before, c, 0) + Points(ranked[i..], c) {
      }
    }
    assert ranked[..|ranked|] == ranked;
  }

  /** What the counting loop has accumulated once it has visited the voters in `done`. */
  ghost predicate ScoredSoFar(rankings: Rankings, done: set<string>,
                              tally: map<string, int>, totalVoters: nat, maxPossible: int)
  {
    && tally.Keys == Listed(rankings, done)
    && (forall c :: Get(tally, c, 0) == ScoreFrom(rankings, done, c))
    && totalVoters == |RankedAmong(rankings, done)|
    && maxPossible == MaxScoreFrom(rankings, done)
  }

  ghost predicate ScoredBallot(tally: map<string, int>, ranked: seq<string>, scored: map<string, int>) {
    && scored.Keys == tally.Keys + Elements(ranked)
    && forall c :: Get(scored, c, 0) == Get(tally, c, 0) + Points(ranked, c)
  }

  lemma ScoreAdds(rankings: Rankings, done: set<string>, voter: string, c: string)
    requires voter !in done
    ensures ScoreFrom(rankings, done + {voter}, c) == ScoreFrom(rankings, done, c) + Points(Ballot(rankings, voter), c)
  {
    SumAdd(done, v => Points(Ballot(rankings, v), c), voter);
  }

  lemma MaxScoreAdds(rankings: Rankings, done: set<string>, voter: string)
    requires voter !in done
    ensures MaxScoreFrom(rankings, done + {voter}) == MaxScoreFrom(rankings, done) + MostPoints(Ballot(rankings, voter))
  {
    SumAdd(done, v => MostPoints(Ballot(rankings, v)), voter);
  }

  lemma ScoreOneMore(rankings: Rankings, done: set<string>, voter: string,
                     tally: map<string, int>, totalVoters: nat, maxPossible: int, scored: map<string, int>)
    requires voter in rankings && voter !in done
    requires ScoredSoFar(rankings, done, tally, totalVoters, maxPossible)
    requires ScoredBallot(tally, rankings[voter], scored)
    ensures if rankings[voter] == []
            then ScoredSoFar(rankings, done + {voter}, tally, totalVoters, maxPossible)
            else ScoredSoFar(rankings, done + {voter}, scored, totalVoters + 1,
                             maxPossible + |rankings[voter]| - 1)
  {
    forall c {
      ScoreAdds(rankings, done, voter, c);
    }
    MaxScoreAdds(rankings, done, voter);
    OneMoreRanked(rankings, done, voter);
    assert rankings[voter] == [] ==> Elements(rankings[voter]) == {};
  }

  lemma ScoredAll(rankings: Rankings, tally: map<string, int>, totalVoters: nat, maxPossible: int)
    requires ScoredSoFar(rankings, rankings.Keys, tally, totalVoters, maxPossible)
    ensures totalVoters == |Turnout(rankings)|
    ensures tally.Keys == Universe(rankings)
    ensures forall c :: c in tally ==> tally[c] == BordaScore(rankings, c)
    ensures maxPossible == MaxBordaScore(rankings)
    ensures forall c :: c in tally ==> tally[c] >= 0
    ensures totalVoters == 0 <==> tally == map[]
  {
    SomeoneRanked(rankings);
    forall c | c in tally ensures tally[c] >= 0 {
      ScoresAreNatural(rankings, c);
      assert tally[c] == Get(tally, c, 0);
    }
  }

  lemma SomeoneRanked(rankings: Rankings)
    ensures Turnout(rankings) == {} <==> Universe(rankings) == {}
  {
    if Turnout(rankings) != {} {
      var voter :| voter in Turnout(rankings);
      var c := Ballot(rankings, voter)[0];
      assert c in Ballot(rankings, voter);
      assert c in Universe(rankings);
    }
    if Universe(rankings) != {} {
      var c :| c in Universe(rankings);
      var voter :| voter in rankings && c in Ballot(rankings, voter);
      assert voter in Turnout(rankings);
    }
  }

  lemma ScoresAreNatural(rankings: Rankings, c: string)
    ensures 0 <= BordaScore(rankings, c)
  {
    SumConstant(rankings.Keys, (_: string) => 0, 0);
    SumAtMost(rankings.Keys, (_: string) => 0, voter => Points(Ballot(rankings, voter), c));
  }

  method DeclareBordaWinner(ghost rankings: Rankings, tally: map<string, int>, totalVoters: nat, maxPossible: int)
    returns (r: Option<Result<int>>)
    requires totalVoters == |Turnout(rankings)| && tally.Keys == Universe(rankings)
    requires forall c :: c in tally ==> tally[c] == BordaScore(rankings, c) >= 0
    requires totalVoters == 0 <==> tally == map[]
    requires maxPossible == MaxBordaScore(rankings)
    ensures r != None && BordaResult(rankings, r.value)
  {
    hide Universe, BordaScore, Turnout, MaxBordaScore, Ratio;
    if totalVoters == 0 {
      return Some(Result("", 0, tally, 0.0));
    }
    var winner, best := BestScore(tally);
    r := Some(Result(winner, totalVoters, tally, Ratio(best, maxPossible)));
  }

  method BestScore(tally: map<string, int>) returns (winner: string, best: int)
    requires tally != map[] && forall c :: c in tally ==> tally[c] >= 0
    ensures winner in tally && best == tally[winner]
    ensures forall c :: c in tally && c != winner ==> tally[c] < best || (tally[c] == best && Less(winner, c))
  {
    hide *;
    var keys := Sorted(tally.Keys);
    assert forall c :: c in tally <==> c in keys;
    winner, best := "", -1;
    ghost var at := 0;
    for i := 0 to |keys|
      invariant if i == 0 then best == -1 else 0 <= at < i && winner == keys[at] && best == tally[winner]
      invariant forall j :: 0 <= j < i ==> tally[keys[j]] <= best
      invariant forall j :: 0 <= j < i && j < at ==> tally[keys[j]] < best
    {
      if tally[keys[i]] > best {
        best, winner, at := tally[keys[i]], keys[i], i;
      }
    }
    FirstOfTheBest(keys, k => if k in tally then tally[k] as real else 0.0, at);
  }

  method ScoreBallots(rankings: Rankings)
    returns (tally: map<string, int>, totalVoters: nat, maxPossible: int)
    ensures ScoredSoFar(rankings, rankings.Keys, tally, totalVoters, maxPossible)
  {
    assert ScoredSoFar(rankings, {}, map[], 0, 0);
    hide ScoredSoFar, ScoredBallot;
    tally, totalVoters, maxPossible := map[], 0, 0;
    var todo := rankings.Keys;
    ghost var done: set<string> := {};
    while todo != {}
      invariant todo <= rankings.Keys && done == rankings.Keys - todo
      invariant ScoredSoFar(rankings, done, tally, totalVoters, maxPossible)
    {
      var voter :| voter in todo;
      var ranked := rankings[voter];
      var scored := ScoreBallot(tally, ranked);
      ScoreOneMore(rankings, done, voter, tally, totalVoters, maxPossible, scored);
      todo, done := todo - {voter}, done + {voter};
      if |ranked| == 0 {
        continue;
      }
      tally, totalVoters, maxPossible := scored, totalVoters + 1, maxPossible + |ranked| - 1;
    }
    assert done == rankings.Keys;
  }

  method CalculateBordaCount(cancelled: bool, rankings: Rankings) returns (r: Option<Result<int>>, err: Option<Error>)
    ensures cancelled ==> r == None && err == Some(Cancelled)
    ensures !cancelled ==> r != None && err == None && BordaResult(rankings, r.value)
  {
    if cancelled {
      return None, Some(Cancelled);
    }
    if |rankings| == 0 {
      SomeoneRanked(rankings);
      return Some(EmptyResult()), None;
    }
    var tally, totalVoters, maxPossible := ScoreBallots(rankings);
    ScoredAll(rankings, tally, totalVoters, maxPossible);
    r := DeclareBordaWinner(rankings, tally, totalVoters, maxPossible);
    err := None;
  }

  // ----- Condorcet -----

  /** Where a ballot puts c: its last listing, or `unranked` when it is not listed. */
  ghost function Position(ballot: seq<string>, c: string, unranked: int): int {
    if ballot == [] then unranked
    else if ballot[|ballot| - 1] == c then |ballot| - 1
    else Position(ballot[..|ballot| - 1], c, unranked)
  }

  ghost predicate Prefers(ballot: seq<string>, a: string, b: string, unranked: int) {
    Position(ballot, a, unranked) < Position(ballot, b, unranked)
  }

  /** 1 when this voter puts a strictly above b, 0 otherwise. */
  ghost function Preference(rankings: Rankings, voter: string, a: string, b: string): int {
    if Prefers(Ballot(rankings, voter), a, b, |Universe(rankings)|) then 1 else 0
  }

  ghost function PairwiseFrom(rankings: Rankings, voters: set<string>, a: string, b: string): int {
    Sum(voters, voter => Preference(rankings, voter, a, b))
  }

  /** How many voters put a strictly above b. */
  ghost function Pairwise(rankings: Rankings, a: string, b: string): int {
    PairwiseFrom(rankings, rankings.Keys, a, b)
  }

  ghost predicate Beats(rankings: Rankings, a: string, b: string) {
    Pairwise(rankings, a, b) > Pairwise(rankings, b, a)
  }

  ghost function Win(rankings: Rankings, a: string, b: string): int {
    if Beats(rankings, a, b) then 1 else 0
  }

  /** How many of the rivals a beats. */
  ghost function WinsOver(rankings: Rankings, a: string, rivals: set<string>): int {
    Sum(rivals - {a}, b => Win(rankings, a, b))
  }

  ghost predicate CondorcetWinner(rankings: Rankings, w: string) {
    w in Universe(rankings) && forall b :: b in Universe(rankings) && b != w ==> Beats(rankings, w, b)
  }

  /** The code tells "no winner" by the empty string, so a choice named "" is never reported. */
  ghost predicate CondorcetResult(rankings: Rankings, r: Result<int>, err: Option<Error>) {
    if rankings == map[] then r == Result("", 0, map[], 0.0) && err == None else
      && r.totalVotes == |Turnout(rankings)|
      && r.tally.Keys == Universe(rankings)
      && (forall a :: a in r.tally ==> r.tally[a] == WinsOver(rankings, a, Universe(rankings)))
      && (err == None <==> exists w :: w != "" && CondorcetWinner(rankings, w))
      && (err == None ==> CondorcetWinner(rankings, r.winningChoice) && r.confidence == 1.0)
      && (err != None ==> err == Some(NoCondorcetWinner) && r.winningChoice == "" && r.confidence == 0.0)
  }

  /** Beating all but oneself is the same as having N-1 wins. */
  lemma AllWins(rankings: Rankings, a: string)
    requires a in Universe(rankings)
    ensures WinsOver(rankings, a, Universe(rankings)) <= |Universe(rankings)| - 1
    ensures WinsOver(rankings, a, Universe(rankings)) == |Universe(rankings)| - 1 <==> CondorcetWinner(rankings, a)
  {
    hide Universe, Beats;
    var rivals := Universe(rankings) - {a};
    var win := b => Win(rankings, a, b);
    SumOfBits(rivals, win);
    assert |rivals| == |Universe(rankings)| - 1;
    assert (forall b :: b in rivals ==> win(b) == 1) <==> CondorcetWinner(rankings, a) by {
      assert forall b :: b in rivals ==> (win(b) == 1 <==> Beats(rankings, a, b));
    }
  }

  lemma OneCondorcetWinner(rankings: Rankings, v: string, w: string)
    requires CondorcetWinner(rankings, v) && CondorcetWinner(rankings, w)
    ensures v == w
  {
  }

  method CollectChoices(rankings: Rankings) returns (choices: set<string>)
    ensures choices == Universe(rankings)
  {
    choices := {};
    var todo := rankings.Keys;
    ghost var done: set<string> := {};
    while todo != {}
      invariant todo <= rankings.Keys && done == rankings.Keys - todo
      invariant choices == Listed(rankings, done)
    {
      var voter :| voter in todo;
      ghost var before := choices;
      for i := 0 to |rankings[voter]|
        invariant choices == before + Elements(rankings[voter][..i])
      {
        assert rankings[voter][..i + 1] == rankings[voter][..i] + [rankings[voter][i]];
        choices := choices + {rankings[voter][i]};
      }
      assert rankings[voter][..|rankings[voter]|] == rankings[voter] == Ballot(rankings, voter);
      assert Listed(rankings, done + {voter}) == Listed(rankings, done) + Elements(Ballot(rankings, voter));
      todo, done := todo - {voter}, done + {voter};
    }
    assert done == rankings.Keys;
  }

  /** idx maps every listed choice to its position. */
  ghost predicate Indexes(ballot: seq<string>, idx: map<string, int>) {
    forall c, unranked :: Get(idx, c, unranked) == Position(ballot, c, unranked)
  }

  method IndexBallot(ranked: seq<string>) returns (idx: map<string, int>)
    ensures Indexes(ranked, idx)
  {
    idx := map[];
    for i := 0 to |ranked|
      invariant Indexes(ranked[..i], idx)
    {
      assert ranked[..i + 1][..i] == ranked[..i];
      idx := idx[ranked[i] := i];
    }
    assert ranked[..|ranked|] == ranked;
  }

  method IndexBallots(rankings: Rankings) returns (rankIndex: map<string, map<string, int>>)
    ensures rankIndex.Keys == rankings.Keys
    ensures forall voter :: voter in rankIndex ==> Indexes(rankings[voter], rankIndex[voter])
  {
    rankIndex := map[];
    var todo := rankings.Keys;
    while todo != {}
      invariant todo <= rankings.Keys && rankIndex.Keys == rankings.Keys - todo
      invariant forall voter :: voter in rankIndex ==> Indexes(rankings[voter], rankIndex[voter])
    {
      var voter :| voter in todo;
      var idx := IndexBallot(rankings[voter]);
      rankIndex := rankIndex[voter := idx];
      todo := todo - {voter};
    }
  }

  ghost function Above(idx: map<string, int>, a: string, b: string, notRanked: int): int {
    if Get(idx, a, notRanked) < Get(idx, b, notRanked) then 1 else 0
  }

  /** One voter, one a: bump a's row for every b the voter puts below a. */
  method CompareRow(row: map<string, int>, idx: map<string, int>, a: string, choices: seq<string>, notRanked: int)
    returns (bumped: map<string, int>)
    requires Ascending(choices)
    ensures forall b :: b in choices && b != a ==> Get(bumped, b, 0) == Get(row, b, 0) + Above(idx, a, b, notRanked)
  {
    bumped := row;
    var posA := Get(idx, a, notRanked);
    for j := 0 to |choices|
      invariant forall k :: 0 <= k < |choices| && choices[k] != a ==>
                  Get(bumped, choices[k], 0)
                  == Get(row, choices[k], 0) + if k < j then Above(idx, a, choices[k], notRanked) else 0
    {
      var b := choices[j];
      if a == b {
        continue;
      }
      assert forall k :: 0 <= k < |choices| && choices[k] == b ==> k == j by {
        LessIrreflexive(b);
      }
      var posB := Get(idx, b, notRanked);
      if posA < posB {
        bumped := Add(bumped, b, 1);
      }
    }
  }

  function At(pairwise: map<string, map<string, int>>, a: string, b: string): int {
    if a in pairwise then Get(pairwise[a], b, 0) else 0
  }

  method CompareVoter(pairwise: map<string, map<string, int>>, idx: map<string, int>,
                      choices: seq<string>, notRanked: int)
    returns (updated: map<string, map<string, int>>)
    requires Ascending(choices) && forall a :: a in choices ==> a in pairwise
    ensures forall a :: a in choices ==> a in updated
    ensures forall a, b :: a in choices && b in choices && a != b ==>
              At(updated, a, b) == At(pairwise, a, b) + Above(idx, a, b, notRanked)
  {
    updated := pairwise;
    for i := 0 to |choices|
      invariant forall a :: a in choices ==> a in updated
      invariant forall k, b :: 0 <= k < i && b in choices && b != choices[k] ==>
                  At(updated, choices[k], b) == At(pairwise, choices[k], b) + Above(idx, choices[k], b, notRanked)
      invariant forall k :: i <= k < |choices| ==> updated[choices[k]] == pairwise[choices[k]]
    {
      var a := choices[i];
      assert forall k :: 0 <= k < |choices| && choices[k] == a ==> k == i by {
        LessIrreflexive(a);
      }
      var row := CompareRow(updated[a], idx, a, choices, notRanked);
      updated := updated[a := row];
    }
  }

  ghost predicate ComparedSoFar(rankings: Rankings, done: set<string>, choices: seq<string>,
                                pairwise: map<string, map<string, int>>)
  {
    && (forall a :: a in choices ==> a in pairwise)
    && forall a, b :: a in choices && b in choices && a != b ==>
         At(pairwise, a, b) == PairwiseFrom(rankings, done, a, b)
  }

  lemma CompareOneMore(rankings: Rankings, done: set<string>, voter: string, idx: map<string, int>,
                       choices: seq<string>, before: map<string, map<string, int>>,
                       after: map<string, map<string, int>>)
    requires voter in rankings && voter !in done && Indexes(rankings[voter], idx)
    requires ComparedSoFar(rankings, done, choices, before)
    requires forall a :: a in choices ==> a in after
    requires forall a, b :: a in choices && b in choices && a != b ==>
               At(after, a, b) == At(before, a, b) + Above(idx, a, b, |Universe(rankings)|)
    ensures ComparedSoFar(rankings, done + {voter}, choices, after)
  {
    forall a, b | a in choices && b in choices && a != b
      ensures At(after, a, b) == PairwiseFrom(rankings, done + {voter}, a, b)
    {
      SumAdd(done, v => Preference(rankings, v, a, b), voter);
      assert Ballot(rankings, voter) == rankings[voter];
    }
  }

  method CompareAll(rankings: Rankings, choices: seq<string>) returns (pairwise: map<string, map<string, int>>)
    requires Ascending(choices) && |choices| == |Universe(rankings)|
    ensures ComparedSoFar(rankings, rankings.Keys, choices, pairwise)
  {
    var rankIndex := IndexBallots(rankings);
    var notRanked := |choices|;
    pairwise := map a | a in choices :: map[];
    var todo := rankIndex.Keys;
    ghost var done: set<string> := {};
    while todo != {}
      invariant todo <= rankings.Keys && done == rankings.Keys - todo
      invariant ComparedSoFar(rankings, done, choices, pairwise)
    {
      var voter :| voter in todo;
      var updated := CompareVoter(pairwise, rankIndex[voter], choices, notRanked);
      CompareOneMore(rankings, done, voter, rankIndex[voter], choices, pairwise, updated);
      pairwise := updated;
      todo, done := todo - {voter}, done + {voter};
    }
    assert done == rankings.Keys;
  }

  method CountWins(ghost rankings: Rankings, pairwise: map<string, map<string, int>>,
                   choices: seq<string>, a: string)
    returns (wins: int)
    requires Ascending(choices) && a in choices
    requires ComparedSoFar(rankings, rankings.Keys, choices, pairwise)
    ensures wins == WinsOver(rankings, a, Elements(choices))
  {
    wins := 0;
    for j := 0 to |choices|
      invariant wins == WinsOver(rankings, a, Elements(choices[..j]))
    {
      var b := choices[j];
      ghost var seen := Elements(choices[..j]);
      assert Elements(choices[..j + 1]) == seen + {b} by {
        assert choices[..j + 1] == choices[..j] + [b];
      }
      if a == b {
        assert seen + {b} - {a} == seen - {a};
        continue;
      }
      assert b !in seen by {
        LessIrreflexive(b);
      }
      assert seen + {b} - {a} == seen - {a} + {b};
      SumAdd(seen - {a}, x => Win(rankings, a, x), b);
      if At(pairwise, a, b) > At(pairwise, b, a) {
        wins := wins + 1;
      }
    }
    assert choices[..|choices|] == choices;
  }

  method CountTurnout(rankings: Rankings) returns (totalVoters: nat)
    ensures totalVoters == |Turnout(rankings)|
  {
    totalVoters := 0;
    var todo := rankings.Keys;
    ghost var done: set<string> := {};
    while todo != {}
      invariant todo <= rankings.Keys && done == rankings.Keys - todo
      invariant totalVoters == |RankedAmong(rankings, done)|
    {
      var voter :| voter in todo;
      OneMoreRanked(rankings, done, voter);
      if |rankings[voter]| > 0 {
        totalVoters := totalVoters + 1;
      }
      todo, done := todo - {voter}, done + {voter};
    }
    assert done == rankings.Keys;
  }

  method FindCondorcetWinner(ghost rankings: Rankings, pairwise: map<string, map<string, int>>, choices: seq<string>)
    returns (winner: string, tally: map<string, int>)
    requires Ascending(choices) && Elements(choices) == Universe(rankings)
    requires |choices| == |Universe(rankings)|
    requires ComparedSoFar(rankings, rankings.Keys, choices, pairwise)
    ensures tally.Keys == Universe(rankings)
    ensures forall a :: a in tally ==> tally[a] == WinsOver(rankings, a, Universe(rankings))
    ensures CondorcetWinner(rankings, winner) || (winner == "" && forall w :: !CondorcetWinner(rankings, w))
  {
    hide Universe, PairwiseFrom, WinsOver, CondorcetWinner, ComparedSoFar, Less;
    winner, tally := "", map[];
    for i := 0 to |choices|
      invariant tally.Keys == Elements(choices[..i])
      invariant forall a :: a in tally ==> tally[a] == WinsOver(rankings, a, Universe(rankings))
      invariant CondorcetWinner(rankings, winner)
                || (winner == "" && forall w :: w in choices[..i] ==> !CondorcetWinner(rankings, w))
    {
      var a := choices[i];
      assert a in Universe(rankings);
      var wins := CountWins(rankings, pairwise, choices, a);
      assert choices[..i + 1] == choices[..i] + [a];
      AllWins(rankings, a);
      tally := tally[a := wins];
      if wins == |choices| - 1 {
        winner := a;
      }
    }
    assert choices[..|choices|] == choices;
    WinnersAreChoices(rankings);
  }

  lemma WinnersAreChoices(rankings: Rankings)
    ensures forall w :: CondorcetWinner(rankings, w) ==> w in Universe(rankings)
  {
  }

  method DeclareCondorcetWinner(ghost rankings: Rankings, winner: string, tally: map<string, int>,
                                nChoices: nat, totalVoters: nat)
    returns (r: Option<Result<int>>, err: Option<Error>)
    requires rankings != map[] && totalVoters == |Turnout(rankings)| && nChoices == |Universe(rankings)|
    requires tally.Keys == Universe(rankings)
    requires forall a :: a in tally ==> tally[a] == WinsOver(rankings, a, Universe(rankings))
    requires CondorcetWinner(rankings, winner) || (winner == "" && forall w :: !CondorcetWinner(rankings, w))
    ensures r != None && CondorcetResult(rankings, r.value, err)
  {
    hide Universe, WinsOver, Turnout, CondorcetWinner, Ratio;
    WinnersAreChoices(rankings);
    if winner == "" {
      forall w | CondorcetWinner(rankings, w) ensures w == "" {
        OneCondorcetWinner(rankings, w, winner);
      }
      return Some(Result("", totalVoters, tally, 0.0)), Some(NoCondorcetWinner);
    }
    var confidence := 1.0;
    if nChoices > 1 {
      AllWins(rankings, winner);
      RatioBounds(nChoices - 1, nChoices - 1);
      confidence := Ratio(tally[winner], nChoices - 1);
    }
    return Some(Result(winner, totalVoters, tally, confidence)), None;
  }

  method CalculateCondorcet(cancelled: bool, rankings: Rankings) returns (r: Option<Result<int>>, err: Option<Error>)
    ensures cancelled ==> r == None && err == Some(Cancelled)
    ensures !cancelled ==> r != None && CondorcetResult(rankings, r.value, err)
  {
    if cancelled {
      return None, Some(Cancelled);
    }
    hide Universe, Beats, PairwiseFrom, WinsOver, Turnout;
    if |rankings| == 0 {
      return Some(EmptyResult()), None;
    }
    var choiceSet := CollectChoices(rankings);
    var choices := Sorted(choiceSet);
    var pairwise := CompareAll(rankings, choices);
    var winner, tally := FindCondorcetWinner(rankings, pairwise, choices);
    var totalVoters := CountTurnout(rankings);
    r, err := DeclareCondorcetWinner(rankings, winner, tally, |choices|, totalVoters);
  }
}
