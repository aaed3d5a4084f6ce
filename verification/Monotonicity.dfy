/** What a voter gains by ranking the winner higher, and what the Borda
    confidence says (voting/voting.go). Nothing here needs complete ballots. */
module Monotonicity {
  import opened Fractions
  import opened Ordering
  import opened Sums
  import opened Voting
  import opened Ballots
  import opened SocialChoice

  /** The ballot with the choice at place i moved up one place. */
  ghost function Raised(ballot: seq<string>, i: nat): seq<string>
    requires 0 < i < |ballot|
  {
    ballot[i - 1 := ballot[i]][i := ballot[i - 1]]
  }

  ghost function RaiseIn(rankings: Rankings, voter: string, i: nat): Rankings
    requires voter in rankings && 0 < i < |rankings[voter]|
  {
    rankings[voter := Raised(rankings[voter], i)]
  }

  lemma SameUniverse(rankings: Rankings, voter: string, i: nat)
    requires voter in rankings && 0 < i < |rankings[voter]|
    ensures Universe(RaiseIn(rankings, voter, i)) == Universe(rankings)
  {
    var ballot, raised := rankings[voter], Raised(rankings[voter], i);
    forall c ensures c in raised <==> c in ballot {
      if c in ballot {
        var k :| 0 <= k < |ballot| && ballot[k] == c;
        assert raised[if k == i then i - 1 else if k == i - 1 then i else k] == c;
      }
    }
    var after := RaiseIn(rankings, voter, i);
    forall v, c ensures c in Ballot(after, v) <==> c in Ballot(rankings, v) {
    }
    assert after.Keys == rankings.Keys;
  }

  /** The raised choice gains a point, the one it passes loses one. */
  lemma {:induction false} RaisedPoints(ballot: seq<string>, i: nat, c: string)
    requires 0 < i < |ballot|
    ensures Points(Raised(ballot, i), c)
            == Points(ballot, c) + (if c == ballot[i] then 1 else 0) - (if c == ballot[i - 1] then 1 else 0)
  {
    var raised := Raised(ballot, i);
    if i == 1 {
      assert raised[1..][1..] == ballot[1..][1..];
    } else {
      assert raised[1..] == Raised(ballot[1..], i - 1);
      RaisedPoints(ballot[1..], i - 1, c);
    }
  }

  lemma RaisedScore(rankings: Rankings, voter: string, i: nat, c: string)
    requires voter in rankings && 0 < i < |rankings[voter]|
    ensures BordaScore(RaiseIn(rankings, voter, i), c)
            == BordaScore(rankings, c)
               + (if c == rankings[voter][i] then 1 else 0) - (if c == rankings[voter][i - 1] then 1 else 0)
  {
    var after := RaiseIn(rankings, voter, i);
    var before, now := v => Points(Ballot(rankings, v), c), v => Points(Ballot(after, v), c);
    assert after.Keys == rankings.Keys;
    SumRemove(rankings.Keys, before, voter);
    SumRemove(rankings.Keys, now, voter);
    SumSame(rankings.Keys - {voter}, before, now);
    RaisedPoints(rankings[voter], i, c);
  }

  /** Borda is monotone: a winner moved up one place on any ballot still wins. */
  lemma BordaMonotone(rankings: Rankings, voter: string, i: nat)
    requires voter in rankings && 0 < i < |rankings[voter]|
    requires BordaWinner(rankings, rankings[voter][i])
    ensures BordaWinner(RaiseIn(rankings, voter, i), rankings[voter][i])
  {
    hide BordaScore, Universe;
    var w, after := rankings[voter][i], RaiseIn(rankings, voter, i);
    SameUniverse(rankings, voter, i);
    RaisedScore(rankings, voter, i, w);
    forall c | c in Universe(after) && c != w
      ensures BordaScore(after, c) < BordaScore(after, w)
              || (BordaScore(after, c) == BordaScore(after, w) && Less(w, c))
    {
      RaisedScore(rankings, voter, i, c);
    }
  }

  /** Raising moves nobody but the raised choice towards the top. */
  lemma {:induction false} RaisedPosition(ballot: seq<string>, i: nat, c: string, unranked: int)
    requires 0 < i < |ballot|
    ensures c == ballot[i] ==> Position(Raised(ballot, i), c, unranked) <= Position(ballot, c, unranked)
    ensures c != ballot[i] ==> Position(Raised(ballot, i), c, unranked) >= Position(ballot, c, unranked)
  {
    var raised, last := Raised(ballot, i), |ballot| - 1;
    if i == last {
      assert raised[..last][..last - 1] == ballot[..last][..last - 1];
    } else {
      assert raised[..last] == Raised(ballot[..last], i);
      RaisedPosition(ballot[..last], i, c, unranked);
    }
  }

  lemma RaisedContest(rankings: Rankings, voter: string, i: nat, b: string)
    requires voter in rankings && 0 < i < |rankings[voter]| && b != rankings[voter][i]
    ensures var w, after := rankings[voter][i], RaiseIn(rankings, voter, i);
            && Pairwise(after, w, b) >= Pairwise(rankings, w, b)
            && Pairwise(after, b, w) <= Pairwise(rankings, b, w)
  {
    hide Universe, Sum;
    var w, after := rankings[voter][i], RaiseIn(rankings, voter, i);
    SameUniverse(rankings, voter, i);
    var n := |Universe(rankings)|;
    RaisedPosition(rankings[voter], i, w, n);
    RaisedPosition(rankings[voter], i, b, n);
    assert after.Keys == rankings.Keys;
    SumAtMost(rankings.Keys, v => Preference(rankings, v, w, b), v => Preference(after, v, w, b));
    SumAtMost(rankings.Keys, v => Preference(after, v, b, w), v => Preference(rankings, v, b, w));
  }

  /** Condorcet is monotone: a winner moved up one place on any ballot still wins. */
  lemma CondorcetMonotone(rankings: Rankings, voter: string, i: nat)
    requires voter in rankings && 0 < i < |rankings[voter]|
    requires CondorcetWinner(rankings, rankings[voter][i])
    ensures CondorcetWinner(RaiseIn(rankings, voter, i), rankings[voter][i])
  {
    hide Universe, Pairwise;
    SameUniverse(rankings, voter, i);
    var w, after := rankings[voter][i], RaiseIn(rankings, voter, i);
    forall b | b in Universe(after) && b != w ensures Beats(after, w, b) {
      assert Beats(rankings, w, b);
      RaisedContest(rankings, voter, i, b);
    }
  }

  // ----- Borda confidence -----

  /** On duplicate-free ballots the confidence lies in [0,1], and it is 1 exactly when some
      ballot ranks two choices and every such ballot puts the winner first. */
  lemma BordaConfidence(rankings: Rankings, w: string)
    requires forall voter :: voter in rankings ==> DuplicateFree(rankings[voter])
    ensures 0 <= BordaScore(rankings, w) <= MaxBordaScore(rankings)
    ensures 0.0 <= Ratio(BordaScore(rankings, w), MaxBordaScore(rankings)) <= 1.0
    ensures Ratio(BordaScore(rankings, w), MaxBordaScore(rankings)) == 1.0 <==>
              && (exists voter :: voter in rankings && |rankings[voter]| >= 2)
              && forall voter :: voter in rankings && |rankings[voter]| >= 2 ==> rankings[voter][0] == w
  {
    hide Sum, Points, MostPoints;
    var voters := rankings.Keys;
    var points, most := v => Points(Ballot(rankings, v), w), v => MostPoints(Ballot(rankings, v));
    var zero := (_: string) => 0;
    forall v | v in voters ensures 0 <= points(v) <= most(v) {
      PointsAtMost(rankings[v], w);
    }
    forall v | v in voters
      ensures points(v) == most(v) <==> |rankings[v]| <= 1 || rankings[v][0] == w
      ensures most(v) == 0 <==> |rankings[v]| <= 1
    {
      TopOfBallot(rankings[v], w);
    }
    SumConstant(voters, zero, 0);
    SumAtMost(voters, zero, points);
    SumAtMost(voters, zero, most);
    SumAtMost(voters, points, most);
    if forall v :: v in voters ==> points(v) == most(v) {
      SumSame(voters, points, most);
    }
    if forall v :: v in voters ==> most(v) == 0 {
      SumConstant(voters, most, 0);
    }
    RatioIsOne(BordaScore(rankings, w), MaxBordaScore(rankings));
  }

  lemma RatioIsOne(part: int, whole: int)
    requires 0 <= part <= whole
    ensures 0.0 <= Ratio(part, whole) <= 1.0
    ensures Ratio(part, whole) == 1.0 <==> part == whole && whole > 0
  {
    if whole > 0 {
      RatioBounds(part, whole);
    }
  }

  lemma TopOfBallot(ballot: seq<string>, c: string)
    requires DuplicateFree(ballot)
    ensures Points(ballot, c) == MostPoints(ballot) <==> |ballot| <= 1 || ballot[0] == c
    ensures MostPoints(ballot) == 0 <==> |ballot| <= 1
  {
    PointsAtMost(ballot, c);
    if ballot != [] && ballot[0] == c {
      UnlistedGetsNoPoints(ballot[1..], c);
    } else if |ballot| == 1 {
      UnlistedGetsNoPoints(ballot, c);
    }
  }

  /** A choice put first gets at least the points first place pays, and more exactly when the
      ballot lists it again before the last place. */
  lemma {:induction false} PointsOfFirst(ballot: seq<string>, c: string)
    requires ballot != [] && ballot[0] == c
    ensures Points(ballot, c) >= MostPoints(ballot)
    ensures Points(ballot, c) == MostPoints(ballot) <==> !Repeats(ballot, c)
  {
    NoPointsIff(ballot[1..], c);
    if i: nat :| 0 < i < |ballot| - 1 && ballot[i] == c {
      assert ballot[1..][i - 1] == c;
    }
  }

  /** c is listed again between the first and the last place. */
  ghost predicate Repeats(ballot: seq<string>, c: string) {
    exists i: nat :: 0 < i < |ballot| - 1 && ballot[i] == c
  }

  lemma {:induction false} NoPointsIff(ballot: seq<string>, c: string)
    ensures Points(ballot, c) == 0 <==> forall i :: 0 <= i < |ballot| - 1 ==> ballot[i] != c
  {
    if ballot != [] {
      var rest := ballot[1..];
      NoPointsIff(rest, c);
      assert forall i :: 0 < i < |ballot| - 1 ==> ballot[i] == rest[i - 1];
      assert forall i :: 0 <= i < |rest| - 1 ==> rest[i] == ballot[i + 1];
    }
  }

  /** When every voter who ranked anything ranks the winner first, the documented confidence
      of 1.0 is met exactly when some ballot ranks two choices and no ballot lists the winner
      again before its last place. */
  lemma DocumentedBordaConfidence(rankings: Rankings, r: Result<int>)
    requires BordaResult(rankings, r)
    requires forall voter :: voter in rankings && rankings[voter] != [] ==> rankings[voter][0] == r.winningChoice
    ensures r.confidence == 1.0 <==>
              && (exists voter :: voter in rankings && |rankings[voter]| >= 2)
              && forall voter :: voter in rankings ==> !Repeats(rankings[voter], r.winningChoice)
  {
    hide Sum, Points, MostPoints, Repeats, Turnout;
    if Turnout(rankings) == {} {
      NobodyRanked(rankings);
    } else {
      TopRankedRatio(rankings, r.winningChoice);
    }
  }

  lemma NobodyRanked(rankings: Rankings)
    requires Turnout(rankings) == {}
    ensures forall voter :: voter in rankings ==> rankings[voter] == []
  {
    forall voter | voter in rankings ensures rankings[voter] == [] {
      assert voter !in Turnout(rankings);
    }
  }

  lemma TopRankedRatio(rankings: Rankings, w: string)
    requires forall voter :: voter in rankings && rankings[voter] != [] ==> rankings[voter][0] == w
    ensures Ratio(BordaScore(rankings, w), MaxBordaScore(rankings)) == 1.0 <==>
              && (exists voter :: voter in rankings && |rankings[voter]| >= 2)
              && forall voter :: voter in rankings ==> !Repeats(rankings[voter], w)
  {
    hide Sum, Points, MostPoints, Repeats;
    var voters := rankings.Keys;
    var points, most := v => Points(Ballot(rankings, v), w), v => MostPoints(Ballot(rankings, v));
    var zero := (_: string) => 0;
    forall v | v in voters
      ensures points(v) >= most(v) >= 0 && (points(v) == most(v) <==> !Repeats(rankings[v], w))
      ensures most(v) == 0 <==> |rankings[v]| <= 1
    {
      TopRankedPoints(rankings[v], w);
    }
    SumConstant(voters, zero, 0);
    SumAtMost(voters, zero, most);
    SumAtMost(voters, most, points);
    if forall v :: v in voters ==> points(v) == most(v) {
      SumSame(voters, points, most);
    }
    if forall v :: v in voters ==> most(v) == 0 {
      SumConstant(voters, most, 0);
    }
    if MaxBordaScore(rankings) > 0 {
      RatioBounds(BordaScore(rankings, w), MaxBordaScore(rankings));
    }
  }

  lemma TopRankedPoints(ballot: seq<string>, w: string)
    requires ballot != [] ==> ballot[0] == w
    ensures Points(ballot, w) >= MostPoints(ballot)
    ensures Points(ballot, w) == MostPoints(ballot) <==> !Repeats(ballot, w)
    ensures MostPoints(ballot) == 0 <==> |ballot| <= 1
  {
    if ballot != [] {
      PointsOfFirst(ballot, w);
    }
  }

  /** The documented "1.0 when top-ranked by every voter" fails when nobody ranks two
      choices: the only voter's only choice wins with confidence 0. */
  lemma TopRankedWithoutConfidence(r: Result<int>)
    requires BordaResult(map["v" := ["a"]], r)
    ensures r.winningChoice == "a" && r.confidence == 0.0
  {
    var rankings: Rankings := map["v" := ["a"]];
    assert rankings["v"] == ["a"];
    assert "v" in Turnout(rankings);
    BordaConfidence(rankings, "a");
    assert r.winningChoice in Universe(rankings);
    BordaConfidence(rankings, r.winningChoice);
    SumConstant(rankings.Keys, v => MostPoints(Ballot(rankings, v)), 0);
  }

  /** Without duplicate-free ballots the confidence can exceed 1. */
  lemma DuplicatesInflateConfidence(r: Result<int>)
    requires BordaResult(map["v" := ["a", "a", "a"]], r)
    ensures r.winningChoice == "a" && r.confidence == 1.5
  {
    var rankings: Rankings := map["v" := ["a", "a", "a"]];
    var ballot := rankings["v"];
    assert "v" in Turnout(rankings);
    assert r.winningChoice in Universe(rankings);
    assert ballot[1..] == ["a", "a"] && ballot[1..][1..] == ["a"] && ballot[1..][1..][1..] == [];
    assert Points(ballot, "a") == 3;
    assert rankings.Keys == {"v"};
    SumRemove(rankings.Keys, v => Points(Ballot(rankings, v), "a"), "v");
    SumRemove(rankings.Keys, v => MostPoints(Ballot(rankings, v)), "v");
    assert rankings.Keys - {"v"} == {};
  }

  // ----- Where unranked choices stand -----

  /** An unranked choice stands below every ranked one exactly when the ballot is no longer
      than there are choices. */
  lemma UnrankedIsLastIff(rankings: Rankings, voter: string, other: string)
    requires voter in rankings && other !in rankings[voter]
    ensures var ballot, n := rankings[voter], |Universe(rankings)|;
            (forall ranked :: ranked in ballot ==> Prefers(ballot, ranked, other, n)) <==> |ballot| <= n
  {
    var ballot, n := rankings[voter], |Universe(rankings)|;
    hide Universe;
    UnlistedPosition(ballot, other, n);
    forall ranked | ranked in ballot ensures Position(ballot, ranked, n) < |ballot| {
      ListedPosition(ballot, ranked, n);
    }
    if ballot != [] {
      assert ballot[|ballot| - 1] in ballot && Position(ballot, ballot[|ballot| - 1], n) == |ballot| - 1;
    }
  }

  lemma {:induction false} ListedPosition(ballot: seq<string>, c: string, unranked: int)
    requires c in ballot
    ensures 0 <= Position(ballot, c, unranked) < |ballot|
  {
    var last := |ballot| - 1;
    assert ballot == ballot[..last] + [ballot[last]];
    if ballot[last] != c {
      ListedPosition(ballot[..last], c, unranked);
    }
  }

  /** A ballot that repeats a choice can put it level with or below an unranked one. */
  lemma RepeatedIsNotAboveUnranked()
    ensures var rankings: Rankings := map["u" := ["a", "a", "a"], "v" := ["b"]];
            "b" in Universe(rankings) && !Prefers(rankings["u"], "a", "b", |Universe(rankings)|)
  {
    var rankings: Rankings := map["u" := ["a", "a", "a"], "v" := ["b"]];
    assert Ballot(rankings, "u") == ["a", "a", "a"] && Ballot(rankings, "v") == ["b"];
    assert rankings.Keys == {"u", "v"};
    assert "a" in Ballot(rankings, "u") && "b" in Ballot(rankings, "v");
    assert Universe(rankings) == {"a", "b"};
    UnrankedIsLastIff(rankings, "u", "b");
  }

  /** On duplicate-free ballots an unranked choice stands below every ranked one. */
  lemma UnrankedIsLast(rankings: Rankings, voter: string, ranked: string, other: string)
    requires voter in rankings && DuplicateFree(rankings[voter])
    requires ranked in rankings[voter] && other !in rankings[voter]
    ensures Prefers(rankings[voter], ranked, other, |Universe(rankings)|)
  {
    var ballot := rankings[voter];
    var i :| 0 <= i < |ballot| && ballot[i] == ranked;
    PositionAt(ballot, i, |Universe(rankings)|);
    UnlistedPosition(ballot, other, |Universe(rankings)|);
    DistinctElements(ballot);
    assert Elements(ballot) <= Universe(rankings) by {
      assert Ballot(rankings, voter) == ballot;
    }
    CardinalityAtMost(Elements(ballot), Universe(rankings));
  }

  lemma {:induction false} UnlistedPosition(ballot: seq<string>, c: string, unranked: int)
    requires c !in ballot
    ensures Position(ballot, c, unranked) == unranked
  {
    if ballot != [] {
      UnlistedPosition(ballot[..|ballot| - 1], c, unranked);
    }
  }

  lemma CardinalityAtMost(a: set<string>, b: set<string>)
    requires a <= b
    ensures |a| <= |b|
  {
    assert b == a + (b - a);
  }
}
