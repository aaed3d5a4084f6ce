/** Social-choice theorems about the Borda and Condorcet tallies of voting/voting.go. */
module SocialChoice {
  import opened Wrappers
  import opened Ordering
  import opened Sums
  import opened Voting
  import opened Ballots

  ghost predicate DuplicateFree(ballot: seq<string>) {
    forall i, j :: 0 <= i < j < |ballot| ==> ballot[i] != ballot[j]
  }

  /** Every ballot ranks every choice exactly once. */
  ghost predicate Complete(rankings: Rankings) {
    forall voter :: voter in rankings ==>
      DuplicateFree(rankings[voter]) && Elements(rankings[voter]) == Universe(rankings)
  }

  // ----- Borda points are pairwise wins -----

  lemma {:induction false} PositionAt(ballot: seq<string>, i: nat, unranked: int)
    requires DuplicateFree(ballot) && i < |ballot|
    ensures Position(ballot, ballot[i], unranked) == i
  {
    if i < |ballot| - 1 {
      PositionAt(ballot[..|ballot| - 1], i, unranked);
    }
  }

  ghost function Below(ballot: seq<string>, c: string, b: string, unranked: int): int {
    if Prefers(ballot, c, b, unranked) then 1 else 0
  }

  lemma ElementsTail(ballot: seq<string>)
    requires ballot != []
    ensures Elements(ballot) == {ballot[0]} + Elements(ballot[1..])
  {
    assert ballot == [ballot[0]] + ballot[1..];
  }

  ghost function BelowCount(ballot: seq<string>, c: string, rivals: set<string>, unranked: int): int {
    Sum(rivals, b => Below(ballot, c, b, unranked))
  }

  lemma FirstIsAboveAll(ballot: seq<string>, unranked: int)
    requires DuplicateFree(ballot) && ballot != []
    ensures BelowCount(ballot, ballot[0], Elements(ballot[1..]), unranked) == |ballot| - 1
  {
    hide Sum;
    var tail, below := ballot[1..], b => Below(ballot, ballot[0], b, unranked);
    PositionAt(ballot, 0, unranked);
    forall b | b in Elements(tail) ensures below(b) == 1 {
      var k :| 0 <= k < |tail| && tail[k] == b;
      PositionAt(ballot, k + 1, unranked);
    }
    SumConstant(Elements(tail), below, 1);
    DistinctElements(tail);
  }

  lemma SameBelowInTail(ballot: seq<string>, c: string, unranked: int)
    requires DuplicateFree(ballot) && ballot != [] && c in ballot[1..]
    ensures BelowCount(ballot, c, Elements(ballot) - {c}, unranked)
            == BelowCount(ballot[1..], c, Elements(ballot[1..]) - {c}, unranked)
  {
    hide Sum;
    var first, tail := ballot[0], ballot[1..];
    ElementsTail(ballot);
    var k :| 0 <= k < |tail| && tail[k] == c;
    PositionAt(ballot, 0, unranked);
    PositionAt(ballot, k + 1, unranked);
    PositionAt(tail, k, unranked);
    var below, belowInTail := b => Below(ballot, c, b, unranked), b => Below(tail, c, b, unranked);
    var rivals := Elements(ballot) - {c};
    SumRemove(rivals, below, first);
    assert rivals - {first} == Elements(tail) - {c};
    forall b | b in rivals - {first} ensures below(b) == belowInTail(b) {
      var m :| 0 <= m < |tail| && tail[m] == b;
      PositionAt(ballot, m + 1, unranked);
      PositionAt(tail, m, unranked);
    }
    SumSame(rivals - {first}, below, belowInTail);
  }

  /** A listed choice earns one point for each choice its ballot puts below it. */
  lemma {:induction false} PointsCountRivalsBelow(ballot: seq<string>, c: string, unranked: int)
    requires DuplicateFree(ballot) && c in ballot
    ensures Points(ballot, c) == BelowCount(ballot, c, Elements(ballot) - {c}, unranked)
  {
    hide BelowCount;
    if c == ballot[0] {
      UnlistedGetsNoPoints(ballot[1..], c);
      ElementsTail(ballot);
      assert Elements(ballot) - {c} == Elements(ballot[1..]);
      FirstIsAboveAll(ballot, unranked);
    } else {
      SameBelowInTail(ballot, c, unranked);
      PointsCountRivalsBelow(ballot[1..], c, unranked);
    }
  }

  lemma {:induction false} DistinctElements(ballot: seq<string>)
    requires DuplicateFree(ballot)
    ensures |Elements(ballot)| == |ballot|
  {
    if ballot != [] {
      ElementsTail(ballot);
      DistinctElements(ballot[1..]);
    }
  }

  lemma VoterPoints(rankings: Rankings, voter: string, c: string)
    requires Complete(rankings) && c in Universe(rankings) && voter in rankings
    ensures Points(Ballot(rankings, voter), c)
            == Sum(Universe(rankings) - {c}, b => Preference(rankings, voter, c, b))
  {
    hide Sum, Universe;
    var n := |Universe(rankings)|;
    PointsCountRivalsBelow(rankings[voter], c, n);
    SumSame(Universe(rankings) - {c}, b => Below(rankings[voter], c, b, n), b => Preference(rankings, voter, c, b));
  }

  ghost function PrefersTo(rankings: Rankings, c: string): (string, string) -> int {
    (voter, b) => Preference(rankings, voter, c, b)
  }

  lemma RowTotal(rankings: Rankings, c: string, voter: string)
    requires Complete(rankings) && c in Universe(rankings) && voter in rankings
    ensures Points(Ballot(rankings, voter), c) == Row(Universe(rankings) - {c}, PrefersTo(rankings, c), voter)
  {
    hide Universe, Complete, Row, Sum;
    VoterPoints(rankings, voter, c);
    RowIs(Universe(rankings) - {c}, PrefersTo(rankings, c), voter, b => Preference(rankings, voter, c, b));
  }

  lemma ColumnTotal(rankings: Rankings, c: string, b: string)
    ensures Pairwise(rankings, c, b) == Column(rankings.Keys, PrefersTo(rankings, c), b)
  {
    ColumnIs(rankings.Keys, PrefersTo(rankings, c), b, voter => Preference(rankings, voter, c, b));
  }

  /** On complete ballots a choice's Borda score is the sum of its pairwise counts. */
  lemma BordaIsPairwiseSum(rankings: Rankings, c: string)
    requires Complete(rankings) && c in Universe(rankings)
    ensures BordaScore(rankings, c) == Sum(Universe(rankings) - {c}, b => Pairwise(rankings, c, b))
  {
    hide Row, Column, Sum, PrefersTo, Universe, Complete;
    var rivals, f := Universe(rankings) - {c}, PrefersTo(rankings, c);
    forall voter | voter in rankings ensures Points(Ballot(rankings, voter), c) == Row(rivals, f, voter) {
      RowTotal(rankings, c, voter);
    }
    forall b | b in rivals ensures Pairwise(rankings, c, b) == Column(rankings.Keys, f, b) {
      ColumnTotal(rankings, c, b);
    }
    SumSwap(rankings.Keys, rivals, f,
            voter => Points(Ballot(rankings, voter), c), b => Pairwise(rankings, c, b));
  }

  // ----- Condorcet winners and the Borda average -----

  lemma OneOfTwoPrefers(rankings: Rankings, voter: string, a: string, b: string)
    requires Complete(rankings) && voter in rankings
    requires a in Universe(rankings) && b in Universe(rankings) && a != b
    ensures Preference(rankings, voter, a, b) + Preference(rankings, voter, b, a) == 1
  {
    hide Universe;
    var ballot := rankings[voter];
    assert a in Elements(ballot) && b in Elements(ballot);
    var i :| 0 <= i < |ballot| && ballot[i] == a;
    var j :| 0 <= j < |ballot| && ballot[j] == b;
    PositionAt(ballot, i, |Universe(rankings)|);
    PositionAt(ballot, j, |Universe(rankings)|);
  }

  /** On complete ballots every voter decides every contest. */
  lemma ContestIsDecided(rankings: Rankings, a: string, b: string)
    requires Complete(rankings)
    requires a in Universe(rankings) && b in Universe(rankings) && a != b
    ensures Pairwise(rankings, a, b) + Pairwise(rankings, b, a) == |rankings|
  {
    hide Universe, Complete, Sum, Preference;
    var forA, forB := v => Preference(rankings, v, a, b), v => Preference(rankings, v, b, a);
    forall voter | voter in rankings ensures forA(voter) + forB(voter) == 1 {
      OneOfTwoPrefers(rankings, voter, a, b);
    }
    var one := (_: string) => 1;
    SumPlus(rankings.Keys, forA, forB, one);
    SumConstant(rankings.Keys, one, 1);
    assert |rankings| == |rankings.Keys|;
  }

  lemma {:induction false} ScaleCompare(n: nat, x: int, y: int)
    requires n > 0
    ensures x > y ==> n * x > n * y
    ensures x < y ==> n * x < n * y
  {
    assert n * x - n * y == n * (x - y);
  }

  /** A Condorcet winner scores strictly above the Borda average of V(N-1)/2. */
  lemma CondorcetWinnerAboveAverage(rankings: Rankings, w: string)
    requires Complete(rankings) && CondorcetWinner(rankings, w) && |Universe(rankings)| >= 2
    ensures 2 * BordaScore(rankings, w) > |rankings| * (|Universe(rankings)| - 1)
  {
    hide Universe, Complete, Sum, Pairwise, BordaScore;
    var rivals, votes := Universe(rankings) - {w}, |rankings|;
    var won := b => Pairwise(rankings, w, b);
    BordaIsPairwiseSum(rankings, w);
    forall b | b in rivals ensures votes + 1 <= won(b) + won(b) {
      assert Beats(rankings, w, b);
      ContestIsDecided(rankings, w, b);
    }
    var floor, twice := (_: string) => votes + 1, b => won(b) + won(b);
    SumConstant(rivals, floor, votes + 1);
    SumPlus(rivals, won, won, twice);
    SumAtMost(rivals, floor, twice);
    assert |rivals| == |Universe(rankings)| - 1 > 0;
    ScaleCompare(|rivals|, votes + 1, votes);
  }

  ghost predicate CondorcetLoser(rankings: Rankings, l: string) {
    l in Universe(rankings) && forall b :: b in Universe(rankings) && b != l ==> Beats(rankings, b, l)
  }

  lemma LoserIsChoice(rankings: Rankings, l: string)
    requires CondorcetLoser(rankings, l)
    ensures l in Universe(rankings)
  {
  }

  lemma LosesTo(rankings: Rankings, l: string, b: string)
    requires Complete(rankings) && CondorcetLoser(rankings, l) && b in Universe(rankings) && b != l
    ensures 2 * Pairwise(rankings, l, b) <= |rankings| - 1
  {
    hide Complete, Universe, Pairwise;
    assert Beats(rankings, b, l);
    ContestIsDecided(rankings, l, b);
  }

  /** A Condorcet loser scores strictly below the Borda average. */
  lemma CondorcetLoserBelowAverage(rankings: Rankings, l: string)
    requires Complete(rankings) && CondorcetLoser(rankings, l) && |Universe(rankings)| >= 2
    ensures 2 * BordaScore(rankings, l) < |rankings| * (|Universe(rankings)| - 1)
  {
    hide Universe, Complete, Sum, Pairwise, BordaScore, Beats, CondorcetLoser;
    var rivals, votes := Universe(rankings) - {l}, |rankings|;
    var won := b => Pairwise(rankings, l, b);
    LoserIsChoice(rankings, l);
    BordaIsPairwiseSum(rankings, l);
    forall b | b in rivals ensures won(b) + won(b) <= votes - 1 {
      LosesTo(rankings, l, b);
    }
    var ceiling, twice := (_: string) => votes - 1, b => won(b) + won(b);
    SumConstant(rivals, ceiling, votes - 1);
    SumPlus(rivals, won, won, twice);
    SumAtMost(rivals, twice, ceiling);
    assert |rivals| == |Universe(rankings)| - 1 > 0;
    ScaleCompare(|rivals|, votes - 1, votes);
  }

  ghost function Contest(rankings: Rankings): (string, string) -> int {
    (a, b) => if a == b then 0 else Pairwise(rankings, a, b)
  }

  lemma RowAndColumn(rankings: Rankings, c: string)
    requires Complete(rankings) && c in Universe(rankings)
    ensures var universe, f := Universe(rankings), Contest(rankings);
            && Row(universe, f, c) == BordaScore(rankings, c)
            && Row(universe, f, c) + Column(universe, f, c) == (|universe| - 1) * |rankings|
  {
    hide Universe, Complete, Sum, Pairwise, BordaScore, Row, Column;
    var universe, rivals := Universe(rankings), Universe(rankings) - {c};
    var won, lost := b => Pairwise(rankings, c, b), b => Pairwise(rankings, b, c);
    var f := Contest(rankings);
    var row, column := b => f(c, b), a => f(a, c);
    RowIs(universe, f, c, row);
    ColumnIs(universe, f, c, column);
    SumRemove(universe, row, c);
    SumRemove(universe, column, c);
    SumSame(rivals, row, won);
    SumSame(rivals, column, lost);
    BordaIsPairwiseSum(rankings, c);
    forall b | b in rivals ensures won(b) + lost(b) == |rankings| {
      ContestIsDecided(rankings, c, b);
    }
    var votes := (_: string) => |rankings|;
    SumPlus(rivals, won, lost, votes);
    SumConstant(rivals, votes, |rankings|);
    assert |rivals| == |universe| - 1;
  }

  /** The Borda scores of complete ballots add up to V*N*(N-1)/2. */
  lemma TotalBordaScore(rankings: Rankings)
    requires Complete(rankings)
    ensures 2 * Sum(Universe(rankings), c => BordaScore(rankings, c))
            == |Universe(rankings)| * ((|Universe(rankings)| - 1) * |rankings|)
  {
    hide Universe, Complete, Sum, BordaScore, Row, Column, Contest;
    var universe, f := Universe(rankings), Contest(rankings);
    var rows, columns := c => Row(universe, f, c), c => Column(universe, f, c);
    forall c | c in universe
      ensures rows(c) == BordaScore(rankings, c) && rows(c) + columns(c) == (|universe| - 1) * |rankings|
    {
      RowAndColumn(rankings, c);
    }
    SumSwap(universe, universe, f, rows, columns);
    SumSame(universe, rows, c => BordaScore(rankings, c));
    var contests := (|universe| - 1) * |rankings|;
    SumPlus(universe, rows, columns, (_: string) => contests);
    SumConstant(universe, (_: string) => contests, contests);
  }

  lemma LevelCompare(n: nat, level: int, average: int, total: int)
    requires n > 0 && 2 * total == n * average
    ensures 2 * level > average ==> n * level > total
    ensures 2 * level < average ==> n * level < total
  {
    ScaleCompare(n, 2 * level, average);
    assert n * (2 * level) == 2 * (n * level);
  }

  lemma AverageIsNotExceededByAll(rankings: Rankings, w: string)
    requires Complete(rankings) && w in Universe(rankings)
    ensures 2 * BordaScore(rankings, w) > |rankings| * (|Universe(rankings)| - 1) ==>
              exists c :: c in Universe(rankings) && BordaScore(rankings, c) < BordaScore(rankings, w)
    ensures 2 * BordaScore(rankings, w) < |rankings| * (|Universe(rankings)| - 1) ==>
              exists c :: c in Universe(rankings) && BordaScore(rankings, c) > BordaScore(rankings, w)
  {
    hide Universe, Complete, Sum, BordaScore;
    var universe := Universe(rankings);
    var score, level := c => BordaScore(rankings, c), BordaScore(rankings, w);
    var n, average := |universe|, |rankings| * (|universe| - 1);
    TotalBordaScore(rankings);
    SumConstant(universe, (_: string) => level, level);
    LevelCompare(n, level, average, Sum(universe, score));
    if forall c :: c in universe ==> score(c) >= level {
      SumAtMost(universe, (_: string) => level, score);
    }
    if forall c :: c in universe ==> score(c) <= level {
      SumAtMost(universe, score, (_: string) => level);
    }
  }

  /** A Condorcet winner is never a Borda loser: some choice scores strictly less. */
  lemma CondorcetWinnerIsNotBordaLoser(rankings: Rankings, w: string)
    requires Complete(rankings) && CondorcetWinner(rankings, w) && |Universe(rankings)| >= 2
    ensures exists c :: c in Universe(rankings) && BordaScore(rankings, c) < BordaScore(rankings, w)
  {
    hide Universe, Complete, BordaScore, Pairwise;
    CondorcetWinnerAboveAverage(rankings, w);
    AverageIsNotExceededByAll(rankings, w);
  }

  /** The Borda winner is never a Condorcet loser. */
  lemma BordaWinnerIsNotCondorcetLoser(rankings: Rankings, w: string)
    requires Complete(rankings) && BordaWinner(rankings, w) && |Universe(rankings)| >= 2
    ensures !CondorcetLoser(rankings, w)
  {
    hide Universe, Complete, BordaScore, Pairwise;
    if CondorcetLoser(rankings, w) {
      CondorcetLoserBelowAverage(rankings, w);
      AverageIsNotExceededByAll(rankings, w);
    }
  }

  /** A Condorcet winner named "" is reported as a cycle. */
  lemma EmptyNameIsReportedAsCycle(rankings: Rankings, r: Result<int>, err: Option<Error>)
    requires CondorcetResult(rankings, r, err) && CondorcetWinner(rankings, "")
    ensures err == Some(NoCondorcetWinner)
  {
    hide Beats, WinsOver, Turnout;
    assert rankings != map[];
    if err == None {
      OneCondorcetWinner(rankings, r.winningChoice, "");
      var w :| w != "" && CondorcetWinner(rankings, w);
      OneCondorcetWinner(rankings, w, "");
    }
  }

  /** The documented error, returned exactly when there is no Condorcet winner, is right exactly
      when there are rankings and the winner, if any, is not named "". */
  lemma NoWinnerErrorIff(rankings: Rankings, r: Result<int>, err: Option<Error>)
    requires CondorcetResult(rankings, r, err)
    ensures (err == Some(NoCondorcetWinner) <==> forall w :: !CondorcetWinner(rankings, w))
            <==> rankings != map[] && !CondorcetWinner(rankings, "")
  {
    hide Beats, WinsOver, Turnout;
    if rankings == map[] {
      assert Universe(rankings) == {};
    } else if CondorcetWinner(rankings, "") {
      EmptyNameIsReportedAsCycle(rankings, r, err);
    }
  }

  /** Without rankings there is neither a winner nor an error. */
  lemma NoRankingsNoError(r: Result<int>, err: Option<Error>)
    requires CondorcetResult(map[], r, err)
    ensures err == None && forall w :: !CondorcetWinner(map[], w)
  {
    assert Universe(map[]) == {};
  }

  /** A winner named "" exists: one voter who lists only the empty name. */
  lemma EmptyNameCanWin()
    ensures CondorcetWinner(map["v" := [""]], "")
  {
    var rankings: Rankings := map["v" := [""]];
    assert "" in Ballot(rankings, "v");
    assert Universe(rankings) == {""};
  }
}
