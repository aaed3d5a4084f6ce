/** When the tallies of voting/voting.go agree, and why the order of votes does not matter. */
module TallyAgreement {
  import opened Wrappers
  import opened Fractions
  import opened Ordering
  import opened Permutations
  import opened Voting

  // ----- Each tally has one result -----

  lemma OneTop(tally: map<string, real>, v: string, w: string)
    requires Tops(v, tally) && Tops(w, tally)
    ensures v == w
  {
    if v != w {
      if Less(v, w) {
        LessAsymmetric(v, w);
      }
    }
  }

  lemma OnePluralityWinner(cfg: Config, votes: seq<Vote>, v: string, w: string)
    requires PluralityWinner(cfg, votes, v) && PluralityWinner(cfg, votes, w)
    ensures v == w
  {
    if v != w {
      if Less(v, w) {
        LessAsymmetric(v, w);
      }
    }
  }

  // ----- The order of the votes -----

  lemma {:induction false} Concatenated(a: seq<Vote>, b: seq<Vote>, c: string, minimum: real)
    ensures CountOf(a + b, c) == CountOf(a, c) + CountOf(b, c)
    ensures ConfidenceOf(a + b, c) == ConfidenceOf(a, c) + ConfidenceOf(b, c)
    ensures Eligible(a + b, minimum) == Eligible(a, minimum) + Eligible(b, minimum)
  {
    if b == [] {
      assert a + b == a;
    } else {
      assert (a + b)[..|a + b| - 1] == a + b[..|b| - 1];
      Concatenated(a, b[..|b| - 1], c, minimum);
    }
  }

  lemma {:induction false} PermutationKeepsCounts(a: seq<Vote>, b: seq<Vote>, c: string, minimum: real)
    requires Permuted(a, b)
    ensures CountOf(a, c) == CountOf(b, c) && ConfidenceOf(a, c) == ConfidenceOf(b, c)
    ensures Permuted(Eligible(a, minimum), Eligible(b, minimum))
    decreases |a|
  {
    hide CountOf, ConfidenceOf, Eligible;
    if a == [] {
      assert |multiset(b)| == |b|;
    } else {
      var init, v := a[..|a| - 1], a[|a| - 1];
      assert a == init + [v];
      assert v in multiset(b);
      var k :| 0 <= k < |b| && b[k] == v;
      var front, back := b[..k], b[k + 1..];
      assert b == front + [v] + back;
      WithoutOne(init, v, front, back);
      PermutationKeepsCounts(init, front + back, c, minimum);
      Concatenated(init, [v], c, minimum);
      Concatenated(front, back, c, minimum);
      Concatenated(front + [v], back, c, minimum);
      Concatenated(front, [v], c, minimum);
    }
  }

  lemma PermutationKeepsTallies(a: seq<Vote>, b: seq<Vote>)
    requires Permuted(a, b)
    ensures |a| == |b| && Choices(a) == Choices(b)
    ensures CountTally(a) == CountTally(b) && ConfidenceTally(a) == ConfidenceTally(b)
    ensures forall c :: CountOf(a, c) == CountOf(b, c) && Average(a, c) == Average(b, c)
  {
    assert |multiset(a)| == |a| && |multiset(b)| == |b|;
    forall c
      ensures CountOf(a, c) == CountOf(b, c) && ConfidenceOf(a, c) == ConfidenceOf(b, c)
      ensures c in Choices(a) <==> c in Choices(b)
    {
      PermutationKeepsCounts(a, b, c, 0.0);
      UncountedIsZero(a, c);
      UncountedIsZero(b, c);
    }
  }

  /** Calculate depends on which votes were cast, not on their order. */
  lemma CalculateIgnoresOrder(cfg: Config, a: seq<Vote>, b: seq<Vote>, ra: Result<real>, rb: Result<real>)
    requires Permuted(a, b) && CalculateResult(cfg, a, ra) && CalculateResult(cfg, b, rb)
    ensures ra == rb
  {
    hide Eligible, ConfidenceTally, Average, Tops;
    var ea, eb := Eligible(a, cfg.minimumConfidence), Eligible(b, cfg.minimumConfidence);
    PermutationKeepsCounts(a, b, "", cfg.minimumConfidence);
    PermutationKeepsTallies(a, b);
    PermutationKeepsTallies(ea, eb);
    if |a| >= cfg.minimumVotes && exists c :: c in ra.tally && ra.tally[c] > -1.0 {
      OneTop(ra.tally, ra.winningChoice, rb.winningChoice);
    }
  }

  lemma PermutationKeepsPluralityWinner(cfg: Config, a: seq<Vote>, b: seq<Vote>, w: string)
    requires Permuted(a, b) && PluralityWinner(cfg, a, w)
    ensures PluralityWinner(cfg, b, w)
  {
    PermutationKeepsTallies(a, b);
    forall c ensures IsLeader(a, c) <==> IsLeader(b, c) {
    }
  }

  /** CalculatePlurality depends on which votes were cast, not on their order. */
  lemma PluralityIgnoresOrder(cfg: Config, a: seq<Vote>, b: seq<Vote>, ra: Result<int>, rb: Result<int>)
    requires Permuted(a, b) && PluralityResult(cfg, a, ra) && PluralityResult(cfg, b, rb)
    ensures ra == rb
  {
    hide CountTally, Average, PluralityWinner;
    PermutationKeepsTallies(a, b);
    if a != [] {
      PermutationKeepsPluralityWinner(cfg, a, b, ra.winningChoice);
      OnePluralityWinner(cfg, b, ra.winningChoice, rb.winningChoice);
    }
  }

  /** CalculateUnanimous depends on which votes were cast, not on their order. */
  lemma UnanimousIgnoresOrder(a: seq<Vote>, b: seq<Vote>, ra: Result<int>, rb: Result<int>,
                              ea: Option<Error>, eb: Option<Error>)
    requires Permuted(a, b) && UnanimousResult(a, ra, ea) && UnanimousResult(b, rb, eb)
    ensures ra == rb && ea == eb
  {
    hide CountTally;
    PermutationKeepsTallies(a, b);
    forall c ensures Unanimous(a, c) <==> Unanimous(b, c) {
      UnanimousIsOneChoice(a, c);
      UnanimousIsOneChoice(b, c);
    }
  }

  // ----- Unanimity decides the other tallies -----

  /** A unanimous choice wins the plurality tally. */
  lemma UnanimousWinsPlurality(cfg: Config, votes: seq<Vote>, u: Result<int>, p: Result<int>)
    requires votes != [] && UnanimousResult(votes, u, None) && PluralityResult(cfg, votes, p)
    ensures p.winningChoice == u.winningChoice && Unanimous(votes, p.winningChoice)
  {
    hide CountTally, Average;
    var c :| Unanimous(votes, c);
    UnanimousIsOneChoice(votes, c);
    assert IsLeader(votes, p.winningChoice);
  }

  lemma {:induction false} EligibleVotes(votes: seq<Vote>, minimum: real)
    ensures forall v :: v in Eligible(votes, minimum) <==> v in votes && v.confidence >= minimum
  {
    if votes != [] {
      var last := |votes| - 1;
      assert votes == votes[..last] + [votes[last]];
      EligibleVotes(votes[..last], minimum);
    }
  }

  lemma {:induction false} ConfidenceIsNatural(votes: seq<Vote>, c: string)
    requires forall v :: v in votes ==> v.confidence >= 0.0
    ensures ConfidenceOf(votes, c) >= 0.0
  {
    if votes != [] {
      var last := |votes| - 1;
      assert votes[last] in votes;
      ConfidenceIsNatural(votes[..last], c);
    }
  }

  /** A unanimous choice wins the weighted tally as soon as one vote counts, when
      confidences are at least 0 and enough votes were cast. */
  lemma UnanimousWinsCalculate(cfg: Config, votes: seq<Vote>, u: Result<int>, r: Result<real>)
    requires votes != [] && UnanimousResult(votes, u, None) && CalculateResult(cfg, votes, r)
    requires |votes| >= cfg.minimumVotes
    requires forall v :: v in votes ==> v.confidence >= 0.0
    requires exists v :: v in votes && v.confidence >= cfg.minimumConfidence
    ensures r.winningChoice == u.winningChoice && Unanimous(votes, r.winningChoice)
  {
    hide CountTally, Average;
    var c :| Unanimous(votes, c);
    var counted := Eligible(votes, cfg.minimumConfidence);
    EligibleVotes(votes, cfg.minimumConfidence);
    var v :| v in votes && v.confidence >= cfg.minimumConfidence;
    assert v in counted && v.choice in Choices(counted);
    assert Choices(counted) == {c};
    ConfidenceIsNatural(counted, c);
    assert r.tally[c] > -1.0;
  }

  // ----- Equal confidences -----

  ghost predicate EquallyConfident(votes: seq<Vote>, q: real) {
    forall v :: v in votes ==> v.confidence == q
  }

  ghost function Scaled(q: real, n: int): real {
    q * n as real
  }

  lemma ScaledStep(q: real, n: int)
    ensures Scaled(q, 0) == 0.0 && Scaled(q, n + 1) == Scaled(q, n) + q
  {
  }

  lemma {:induction false} EqualConfidenceCounts(votes: seq<Vote>, q: real, minimum: real, c: string)
    requires EquallyConfident(votes, q) && q >= minimum
    ensures ConfidenceOf(votes, c) == Scaled(q, CountOf(votes, c))
    ensures Eligible(votes, minimum) == votes
  {
    hide Scaled;
    assert votes[..|votes|] == votes;
    ScaledStep(q, 0);
    if votes != [] {
      var last := |votes| - 1;
      assert votes[last] in votes && votes == votes[..last] + [votes[last]];
      EqualConfidenceCounts(votes[..last], q, minimum, c);
      ScaledStep(q, CountOf(votes[..last], c));
    }
  }

  lemma ScaledOrder(q: real, m: int, n: int)
    requires q > 0.0
    ensures Scaled(q, m) < Scaled(q, n) <==> m < n
    ensures Scaled(q, m) == Scaled(q, n) <==> m == n
  {
    if m < n {
      assert q * (n - m) as real > 0.0;
    } else if n < m {
      assert q * (m - n) as real > 0.0;
    }
  }

  lemma EqualConfidenceAverage(votes: seq<Vote>, q: real, c: string)
    requires EquallyConfident(votes, q) && CountOf(votes, c) > 0
    ensures Average(votes, c) == q
  {
    hide CountOf, ConfidenceOf, Eligible;
    EqualConfidenceCounts(votes, q, q, c);
    var n := CountOf(votes, c) as real;
    Quotient(q * n, n);
    assert (q * n / n - q) * n == 0.0;
    SignOfProduct(q * n / n - q, n);
  }

  /** When every vote carries the same positive confidence and both minimums are met,
      the weighted and the plurality tally pick the same winner. */
  lemma EqualConfidenceAgreement(cfg: Config, votes: seq<Vote>, q: real, r: Result<real>, p: Result<int>)
    requires votes != [] && EquallyConfident(votes, q)
    requires q > 0.0 && q >= cfg.minimumConfidence && |votes| >= cfg.minimumVotes
    requires CalculateResult(cfg, votes, r) && PluralityResult(cfg, votes, p)
    ensures r.winningChoice == p.winningChoice
  {
    hide CountTally, Average, Eligible, CountOf, ConfidenceOf, Scaled;
    ScaledStep(q, 0);
    forall c
      ensures ConfidenceOf(votes, c) == Scaled(q, CountOf(votes, c))
      ensures Eligible(votes, cfg.minimumConfidence) == votes
    {
      EqualConfidenceCounts(votes, q, cfg.minimumConfidence, c);
    }
    var w := p.winningChoice;
    forall c | c in Choices(votes)
      ensures Average(votes, c) == q && ConfidenceOf(votes, c) > 0.0
      ensures CountOf(votes, c) < CountOf(votes, w) ==> ConfidenceOf(votes, c) < ConfidenceOf(votes, w)
      ensures CountOf(votes, c) == CountOf(votes, w) ==> ConfidenceOf(votes, c) == ConfidenceOf(votes, w)
    {
      UncountedIsZero(votes, c);
      EqualConfidenceAverage(votes, q, c);
      ScaledOrder(q, 0, CountOf(votes, c));
      ScaledOrder(q, CountOf(votes, c), CountOf(votes, w));
    }
    forall c | c in Choices(votes) && c != w
      ensures ConfidenceOf(votes, c) < ConfidenceOf(votes, w)
              || (ConfidenceOf(votes, c) == ConfidenceOf(votes, w) && Less(w, c))
    {
      if CountOf(votes, c) == CountOf(votes, w) {
        assert IsLeader(votes, c);
      }
    }
    assert r.tally == ConfidenceTally(votes) && Tops(w, r.tally);
    assert r.tally[w] > -1.0;
    OneTop(r.tally, w, r.winningChoice);
  }

  /** Among choices with equally many votes, the average the code compares orders them as
      the documented aggregate confidence does. */
  lemma TieBreakIsByAggregate(votes: seq<Vote>, a: string, b: string)
    requires IsLeader(votes, a) && IsLeader(votes, b)
    ensures Average(votes, a) < Average(votes, b) <==> ConfidenceOf(votes, a) < ConfidenceOf(votes, b)
  {
    UncountedIsZero(votes, a);
    var n := CountOf(votes, a) as real;
    assert CountOf(votes, b) as real == n > 0.0;
    SameDenominator(ConfidenceOf(votes, a), ConfidenceOf(votes, b), n);
  }

  /** The documented pick of the tie-break: the highest aggregate confidence among the leaders,
      the least name among equals. */
  ghost predicate DocumentedTieBreak(votes: seq<Vote>, w: string) {
    && IsLeader(votes, w)
    && forall c :: IsLeader(votes, c) && c != w ==>
         || ConfidenceOf(votes, c) < ConfidenceOf(votes, w)
         || (ConfidenceOf(votes, c) == ConfidenceOf(votes, w) && Less(w, c))
  }

  /** With the confidence tie-break enabled, the documented pick is made exactly when some
      leader's average is above the scan's start of -1, or else no leader has a higher aggregate
      than the first one by name, which then wins. */
  lemma DocumentedTieBreakIff(cfg: Config, votes: seq<Vote>, w: string)
    requires cfg.enableTieBreaking && cfg.tieBreakMethod == "highest_confidence"
    requires PluralityWinner(cfg, votes, w)
    ensures DocumentedTieBreak(votes, w) <==>
              || TieBreakApplies(cfg, votes)
              || forall c :: IsLeader(votes, c) ==> ConfidenceOf(votes, c) <= ConfidenceOf(votes, w)
  {
    hide IsLeader, Average, ConfidenceOf, Less;
    forall c | IsLeader(votes, c)
      ensures Average(votes, c) < Average(votes, w) <==> ConfidenceOf(votes, c) < ConfidenceOf(votes, w)
      ensures Average(votes, w) < Average(votes, c) <==> ConfidenceOf(votes, w) < ConfidenceOf(votes, c)
    {
      TieBreakIsByAggregate(votes, c, w);
      TieBreakIsByAggregate(votes, w, c);
    }
  }

  /** Two votes below the usual range: the choice with the lower aggregate wins the tie. */
  lemma LowConfidenceMisleads(cfg: Config, w: string)
    requires cfg.enableTieBreaking && cfg.tieBreakMethod == "highest_confidence"
    requires PluralityWinner(cfg, [Vote("v", "a", -2.0), Vote("u", "b", -1.5)], w)
    ensures w == "a" && !DocumentedTieBreak([Vote("v", "a", -2.0), Vote("u", "b", -1.5)], w)
  {
    hide CountOf, ConfidenceOf;
    var x, y := Vote("v", "a", -2.0), Vote("u", "b", -1.5);
    var votes := [x, y];
    assert votes[0] in votes && votes[1] in votes;
    assert Choices(votes) == {"a", "b"};
    TwoVotes(x, y, "a");
    TwoVotes(x, y, "b");
    assert IsLeader(votes, "a") && IsLeader(votes, "b");
    assert !Less("b", "a");
  }

  lemma TwoVotes(x: Vote, y: Vote, c: string)
    ensures CountOf([x, y], c) == (if x.choice == c then 1 else 0) + if y.choice == c then 1 else 0
    ensures ConfidenceOf([x, y], c)
            == (if x.choice == c then x.confidence else 0.0) + if y.choice == c then y.confidence else 0.0
  {
    assert [x][..0] == [] && [x, y][..1] == [x];
    assert CountOf([x], c) == if x.choice == c then 1 else 0;
    assert ConfidenceOf([x], c) == if x.choice == c then x.confidence else 0.0;
  }

  lemma SameDenominator(x: real, y: real, n: real)
    requires n > 0.0
    ensures x / n < y / n <==> x < y
  {
    Quotient(x, n);
    Quotient(y, n);
    assert (y / n - x / n) * n == y - x;
    SignOfProduct(y / n - x / n, n);
  }
}
