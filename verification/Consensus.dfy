/** Round-level consensus of the debate runner (protocol/protocol.go): the most
    frequent trimmed content wins. */
module Consensus {
  import opened Wrappers
  import opened Fractions
  import opened Ordering
  import opened Permutations
  import opened Sums
  import opened Text

  /** A zero timestamp or latency stands for "not set by the invoker". */
  datatype Response = Response(agentID: string, phase: string, content: string, timestamp: int, latency: int)

  datatype ConsensusResult = ConsensusResult(choice: string, confidence: real, contributors: seq<string>)

  ghost function Key(r: Response): string {
    Trim(r.content)
  }

  /** The contents that count: trimmed and not blank. */
  ghost function Keys(responses: seq<Response>): set<string> {
    set r | r in responses && Key(r) != "" :: Key(r)
  }

  ghost function Frequency(responses: seq<Response>, k: string): nat {
    if responses == [] then 0 else
      Frequency(responses[..|responses| - 1], k) + if Key(responses[|responses| - 1]) == k then 1 else 0
  }

  ghost function NonBlank(responses: seq<Response>): nat {
    if responses == [] then 0 else
      NonBlank(responses[..|responses| - 1]) + if Key(responses[|responses| - 1]) != "" then 1 else 0
  }

  /** The agents whose trimmed content is k, in response order. */
  ghost function Contributors(responses: seq<Response>, k: string): seq<string> {
    if responses == [] then [] else
      Contributors(responses[..|responses| - 1], k)
      + if Key(responses[|responses| - 1]) == k then [responses[|responses| - 1].agentID] else []
  }

  /** k is a most frequent content. */
  ghost predicate IsModal(responses: seq<Response>, k: string) {
    k in Keys(responses) && forall x :: x in Keys(responses) ==> Frequency(responses, x) <= Frequency(responses, k)
  }

  /** k is the lexicographically least of the most frequent contents. */
  ghost predicate IsChoice(responses: seq<Response>, k: string) {
    IsModal(responses, k) && forall x :: IsModal(responses, x) && x != k ==> Less(k, x)
  }

  ghost predicate IsConsensus(responses: seq<Response>, c: Option<ConsensusResult>) {
    match c
    case None => Keys(responses) == {}
    case Some(r) =>
      && IsChoice(responses, r.choice)
      && r.confidence == Ratio(Frequency(responses, r.choice), NonBlank(responses))
      && r.contributors == Contributors(responses, r.choice)
  }

  // ----- Lemmas on counting -----

  lemma AddedKey(responses: seq<Response>, r: Response)
    ensures Keys(responses + [r]) == Keys(responses) + if Key(r) == "" then {} else {Key(r)}
    ensures "" !in Keys(responses)
  {
    var more := responses + [r];
    assert r in more;
    forall k | k in Keys(responses) ensures k in Keys(more) {
      var x :| x in responses && Key(x) == k;
      assert x in more;
    }
  }

  lemma {:induction false} CountedKeys(responses: seq<Response>, k: string)
    requires k != ""
    ensures k in Keys(responses) <==> Frequency(responses, k) > 0
    ensures |Contributors(responses, k)| == Frequency(responses, k)
  {
    if responses != [] {
      var last := |responses| - 1;
      assert responses == responses[..last] + [responses[last]];
      AddedKey(responses[..last], responses[last]);
      CountedKeys(responses[..last], k);
    }
  }

  ghost function FrequencyIn(responses: seq<Response>): string -> int {
    k => Frequency(responses, k)
  }

  /** The frequencies of all contents add up to the number of non-blank responses. */
  lemma {:induction false} FrequenciesAddUp(responses: seq<Response>, keys: set<string>)
    requires Keys(responses) <= keys && "" !in keys
    ensures Sum(keys, FrequencyIn(responses)) == NonBlank(responses)
  {
    if responses == [] {
      SumConstant(keys, FrequencyIn(responses), 0);
    } else {
      var init, r := responses[..|responses| - 1], responses[|responses| - 1];
      assert responses == init + [r];
      AddedKey(init, r);
      FrequenciesAddUp(init, keys);
      var before, after, k := FrequencyIn(init), FrequencyIn(responses), Key(r);
      if k == "" {
        SumSame(keys, before, after);
      } else {
        SumRemove(keys, before, k);
        SumRemove(keys, after, k);
        SumSame(keys - {k}, before, after);
      }
    }
  }

  // ----- The loops -----

  /** The maps after the counting loop has seen these responses. */
  ghost predicate Counted(responses: seq<Response>, counts: map<string, int>, contribs: map<string, seq<string>>) {
    && counts.Keys == contribs.Keys == Keys(responses)
    && forall k :: k in counts ==> counts[k] == Frequency(responses, k) && contribs[k] == Contributors(responses, k)
  }

  lemma CountOneMore(responses: seq<Response>, r: Response, counts: map<string, int>,
                     contribs: map<string, seq<string>>)
    requires Counted(responses, counts, contribs)
    ensures var k := Key(r);
            if k == "" then Counted(responses + [r], counts, contribs)
            else Counted(responses + [r], counts[k := (if k in counts then counts[k] else 0) + 1],
                         contribs[k := (if k in contribs then contribs[k] else []) + [r.agentID]])
  {
    hide Keys, Frequency, Contributors;
    AddedKey(responses, r);
    forall k | k in Keys(responses + [r])
      ensures Frequency(responses + [r], k) == Frequency(responses, k) + if k == Key(r) then 1 else 0
      ensures Contributors(responses + [r], k)
              == Contributors(responses, k) + if k == Key(r) then [r.agentID] else []
    {
      AddedResponse(responses, r, k);
    }
    if Key(r) != "" && Key(r) !in Keys(responses) {
      CountedKeys(responses, Key(r));
    }
  }

  lemma AddedResponse(responses: seq<Response>, r: Response, k: string)
    ensures Frequency(responses + [r], k) == Frequency(responses, k) + if k == Key(r) then 1 else 0
    ensures Contributors(responses + [r], k)
            == Contributors(responses, k) + if k == Key(r) then [r.agentID] else []
  {
    var more := responses + [r];
    assert more[..|more| - 1] == responses;
  }

  method CountContents(responses: seq<Response>)
    returns (counts: map<string, int>, contribs: map<string, seq<string>>)
    ensures Counted(responses, counts, contribs)
  {
    counts, contribs := map[], map[];
    for i := 0 to |responses|
      invariant Counted(responses[..i], counts, contribs)
    {
      var r := responses[i];
      var key := Trim(r.content);
      CountOneMore(responses[..i], r, counts, contribs);
      assert responses[..i + 1] == responses[..i] + [r];
      if key == "" {
        continue;
      }
      counts := counts[key := (if key in counts then counts[key] else 0) + 1];
      contribs := contribs[key := (if key in contribs then contribs[key] else []) + [r.agentID]];
    }
    assert responses[..|responses|] == responses;
  }

  method MostFrequent(counts: map<string, int>) returns (bestKey: string)
    requires counts != map[]
    ensures bestKey in counts
    ensures forall k :: k in counts && k != bestKey ==>
              counts[k] < counts[bestKey] || (counts[k] == counts[bestKey] && Less(bestKey, k))
  {
    hide *;
    var keys := Sorted(counts.Keys);
    assert forall k :: k in counts <==> k in keys;
    bestKey := keys[0];
    var bestCount := counts[bestKey];
    ghost var at := 0;
    for i := 1 to |keys|
      invariant 0 <= at < i && bestKey == keys[at] && bestCount == counts[bestKey]
      invariant forall j :: 0 <= j < at ==> counts[keys[j]] < bestCount
      invariant forall j :: at < j < i ==> counts[keys[j]] <= bestCount
    {
      if counts[keys[i]] > bestCount {
        bestKey, bestCount, at := keys[i], counts[keys[i]], i;
      }
    }
    FirstOfTheBest(keys, k => if k in counts then counts[k] as real else 0.0, at);
  }

  method AddUp(ghost responses: seq<Response>, counts: map<string, int>) returns (total: int)
    requires counts.Keys == Keys(responses)
    requires forall k :: k in counts ==> counts[k] == Frequency(responses, k)
    ensures total == NonBlank(responses)
  {
    total := 0;
    var todo := counts.Keys;
    ghost var done: set<string> := {};
    while todo != {}
      invariant todo <= counts.Keys && done == counts.Keys - todo
      invariant total == Sum(done, FrequencyIn(responses))
    {
      var k :| k in todo;
      SumAdd(done, FrequencyIn(responses), k);
      total := total + counts[k];
      todo, done := todo - {k}, done + {k};
    }
    assert done == counts.Keys;
    FrequenciesAddUp(responses, done);
  }

  method ComputeConsensus(responses: seq<Response>) returns (c: Option<ConsensusResult>)
    ensures IsConsensus(responses, c)
  {
    if |responses| == 0 {
      return None;
    }
    var counts, contribs := CountContents(responses);
    if |counts| == 0 {
      return None;
    }
    var bestKey := MostFrequent(counts);
    var total := AddUp(responses, counts);
    assert IsChoice(responses, bestKey) by {
      assert IsModal(responses, bestKey);
    }
    c := Some(ConsensusResult(bestKey, Ratio(counts[bestKey], total), contribs[bestKey]));
  }

  // ----- What a consensus means -----

  lemma OneConsensus(responses: seq<Response>, c: Option<ConsensusResult>, d: Option<ConsensusResult>)
    requires IsConsensus(responses, c) && IsConsensus(responses, d)
    ensures c == d
  {
    if c != None && d != None && c.value.choice != d.value.choice {
      LessAsymmetric(c.value.choice, d.value.choice);
    }
  }

  lemma {:induction false} FrequencyAtMost(responses: seq<Response>, k: string)
    requires k != ""
    ensures Frequency(responses, k) <= NonBlank(responses) <= |responses|
    ensures NonBlank(responses) == |responses| <==> forall r :: r in responses ==> Key(r) != ""
    ensures Frequency(responses, k) == NonBlank(responses) <==>
              forall r :: r in responses && Key(r) != "" ==> Key(r) == k
  {
    if responses != [] {
      var last := |responses| - 1;
      assert responses == responses[..last] + [responses[last]];
      assert responses[last] in responses;
      FrequencyAtMost(responses[..last], k);
    }
  }

  /** Confidence lies in (0,1], is 1 exactly when the non-blank responses agree, and the
      contributors are as many as the choice's occurrences. */
  lemma ConsensusConfidence(responses: seq<Response>, c: ConsensusResult)
    requires IsConsensus(responses, Some(c))
    ensures 0.0 < c.confidence <= 1.0
    ensures c.confidence == 1.0 <==> forall r :: r in responses && Key(r) != "" ==> Key(r) == c.choice
    ensures |c.contributors| == Frequency(responses, c.choice) > 0
  {
    CountedKeys(responses, c.choice);
    FrequencyAtMost(responses, c.choice);
    RatioBounds(Frequency(responses, c.choice), NonBlank(responses));
  }

  /** The documented frequency over all responses is what the code computes exactly when
      no response is blank. */
  lemma DocumentedConfidence(responses: seq<Response>, c: ConsensusResult)
    requires IsConsensus(responses, Some(c))
    ensures c.confidence == Ratio(Frequency(responses, c.choice), |responses|)
            <==> forall r :: r in responses ==> Key(r) != ""
  {
    CountedKeys(responses, c.choice);
    FrequencyAtMost(responses, c.choice);
    RatioOfMore(Frequency(responses, c.choice), NonBlank(responses), |responses|);
  }

  /** One blank response beside another: the code says 1, the documentation one half. */
  lemma BlankRaisesConfidence(blank: Response, said: Response, c: Option<ConsensusResult>)
    requires blank.content == "" && said.content == "x" && IsConsensus([blank, said], c)
    ensures c != None && c.value.choice == "x" && c.value.confidence == 1.0
    ensures Ratio(Frequency([blank, said], "x"), |[blank, said]|) == 0.5
  {
    var both := [blank, said];
    TrimmedIff("");
    TrimmedIff("x");
    assert Key(said) == "x" && Key(blank) == "";
    assert Frequency([], "x") == 0;
    hide Trim, IsChoice, IsModal, Contributors, Frequency;
    assert [] + [blank] == [blank] && [blank] + [said] == both;
    AddedResponse([], blank, "x");
    AddedResponse([blank], said, "x");
    assert said in both && Keys(both) == {"x"};
    assert c != None && c.value.choice == "x" by {
      ChoiceIsKey(both, c);
    }
    ConsensusConfidence(both, c.value);
    RatioBounds(1, 2);
  }

  lemma ChoiceIsKey(responses: seq<Response>, c: Option<ConsensusResult>)
    requires IsConsensus(responses, c)
    ensures c != None ==> c.value.choice in Keys(responses)
    ensures c == None ==> Keys(responses) == {}
  {
  }

  lemma {:induction false} Concatenated(a: seq<Response>, b: seq<Response>, k: string)
    ensures Frequency(a + b, k) == Frequency(a, k) + Frequency(b, k)
    ensures NonBlank(a + b) == NonBlank(a) + NonBlank(b)
    ensures Contributors(a + b, k) == Contributors(a, k) + Contributors(b, k)
  {
    if b == [] {
      assert a + b == a;
    } else {
      assert (a + b)[..|a + b| - 1] == a + b[..|b| - 1];
      Concatenated(a, b[..|b| - 1], k);
    }
  }

  lemma {:induction false} PermutationKeepsFrequency(a: seq<Response>, b: seq<Response>, k: string)
    requires Permuted(a, b)
    ensures Frequency(a, k) == Frequency(b, k) && NonBlank(a) == NonBlank(b)
    ensures Permuted(Contributors(a, k), Contributors(b, k))
    decreases |a|
  {
    hide Frequency, NonBlank, Contributors;
    if a == [] {
      assert |multiset(b)| == |b|;
    } else {
      var init, r := a[..|a| - 1], a[|a| - 1];
      assert a == init + [r];
      assert r in multiset(b);
      var i :| 0 <= i < |b| && b[i] == r;
      var front, back := b[..i], b[i + 1..];
      assert b == front + [r] + back;
      WithoutOne(init, r, front, back);
      PermutationKeepsFrequency(init, front + back, k);
      Concatenated(init, [r], k);
      Concatenated(front, back, k);
      Concatenated(front + [r], back, k);
      Concatenated(front, [r], k);
    }
  }

  /** Permuting the responses changes neither the choice nor the confidence, and only
      permutes the contributors. */
  lemma ConsensusIgnoresOrder(a: seq<Response>, b: seq<Response>,
                              c: Option<ConsensusResult>, d: Option<ConsensusResult>)
    requires Permuted(a, b) && IsConsensus(a, c) && IsConsensus(b, d)
    ensures c == None <==> d == None
    ensures c != None ==> c.value.choice == d.value.choice && c.value.confidence == d.value.confidence
                          && Permuted(c.value.contributors, d.value.contributors)
  {
    forall k | k != "" ensures k in Keys(a) <==> k in Keys(b) ensures Frequency(a, k) == Frequency(b, k) {
      PermutationKeepsFrequency(a, b, k);
      CountedKeys(a, k);
      CountedKeys(b, k);
    }
    assert Keys(a) == Keys(b);
    if c != None {
      var k := c.value.choice;
      assert forall x :: IsModal(a, x) <==> IsModal(b, x);
      if k != d.value.choice {
        LessAsymmetric(k, d.value.choice);
      }
      PermutationKeepsFrequency(a, b, k);
    }
  }
}
