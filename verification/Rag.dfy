/** The in-memory retrieval and the symbol table of tools/tools.go. Text is ASCII, so
    lower-casing keeps lengths; scores are exact rationals, as reals. A hit is a document in
    which the query occurs; hits are ranked by an insertion sort in place. */
module Rag {
  import opened Wrappers
  import opened Fractions
  import opened Text
  import opened Permutations

  datatype Result<+T> = Ok(value: T) | Err

  // ----- Substring counting -----

  predicate OccursAt(s: string, q: string, i: nat) {
    i + |q| <= |s| && s[i..i + |q|] == q
  }

  /** strings.Index: the first occurrence of q, or -1. */
  function Find(s: string, q: string): (k: int)
    ensures k >= 0 ==> OccursAt(s, q, k) && forall i: nat :: i < k ==> !OccursAt(s, q, i)
    ensures k == -1 || 0 <= k <= |s| - |q|
    ensures k == -1 ==> forall i: nat :: !OccursAt(s, q, i)
  {
    if |s| < |q| then -1
    else if s[..|q|] == q then 0
    else if s == "" then -1
    else
      var k := Find(s[1..], q);
      OccursInRest(s, q);
      if k < 0 then -1 else k + 1
  }

  lemma OccursInSuffix(s: string, q: string, from: nat, i: nat)
    requires from <= |s|
    ensures OccursAt(s[from..], q, i) <==> OccursAt(s, q, from + i)
  {
    if from + i + |q| <= |s| {
      assert s[from..][i..i + |q|] == s[from + i..from + i + |q|];
    }
  }

  lemma OccursInRest(s: string, q: string)
    requires s != "" && !OccursAt(s, q, 0)
    ensures forall i: nat :: OccursAt(s, q, i) <==> i > 0 && OccursAt(s[1..], q, i - 1)
  {
    forall i: nat ensures OccursAt(s, q, i) <==> i > 0 && OccursAt(s[1..], q, i - 1) {
      if i > 0 {
        OccursInSuffix(s, q, 1, i - 1);
      }
    }
  }

  /** strings.Count for a non-empty q: find, skip past the occurrence, repeat. */
  function Count(s: string, q: string): nat
    requires q != ""
    decreases |s|
  {
    var k := Find(s, q);
    if k < 0 then 0 else 1 + Count(s[k + |q|..], q)
  }

  /** Places of occurrences that do not overlap, in order. */
  ghost predicate Disjoint(s: string, q: string, places: seq<nat>) {
    && (forall k :: 0 <= k < |places| ==> OccursAt(s, q, places[k]))
    && (forall k :: 0 < k < |places| ==> places[k - 1] + |q| <= places[k])
  }

  function Shifted(places: seq<nat>, offset: nat): (r: seq<nat>)
    ensures |r| == |places| && forall k :: 0 <= k < |r| ==> r[k] == places[k] + offset
  {
    if places == [] then [] else [places[0] + offset] + Shifted(places[1..], offset)
  }

  lemma PrependPlace(s: string, q: string, k: nat, rest: seq<nat>)
    requires OccursAt(s, q, k) && Disjoint(s[k + |q|..], q, rest)
    ensures Disjoint(s, q, [k] + Shifted(rest, k + |q|))
  {
    var after := k + |q|;
    var shifted := Shifted(rest, after);
    forall m | 0 <= m < |shifted| ensures OccursAt(s, q, shifted[m]) {
      OccursInSuffix(s, q, after, rest[m]);
    }
  }

  /** The greedy count is reached by disjoint occurrences. */
  lemma {:induction false} CountIsReached(s: string, q: string) returns (places: seq<nat>)
    requires q != ""
    ensures Disjoint(s, q, places) && |places| == Count(s, q)
    decreases |s|
  {
    var k := Find(s, q);
    if k < 0 {
      places := [];
    } else {
      var rest := CountIsReached(s[k + |q|..], q);
      PrependPlace(s, q, k, rest);
      places := [k as nat] + Shifted(rest, k + |q|);
    }
  }

  /** No way of choosing disjoint occurrences finds more than the greedy count. */
  lemma {:induction false} CountIsMaximum(s: string, q: string, places: seq<nat>)
    requires q != "" && Disjoint(s, q, places)
    ensures |places| <= Count(s, q)
    decreases |s|
  {
    hide Find, OccursAt;
    if places != [] {
      var k := Find(s, q);
      assert OccursAt(s, q, places[0]);
      var after := k + |q|;
      Increasing(s, q, places);
      var rest := seq(|places| - 1, m requires 0 <= m < |places| - 1 => var d: nat := places[m + 1] - after; d);
      forall m | 0 <= m < |rest| ensures OccursAt(s[after..], q, rest[m]) {
        assert OccursAt(s, q, places[m + 1]);
        OccursInSuffix(s, q, after, rest[m]);
      }
      CountIsMaximum(s[after..], q, rest);
    }
  }

  lemma {:induction false} Increasing(s: string, q: string, places: seq<nat>)
    requires Disjoint(s, q, places)
    ensures forall m :: 0 < m < |places| ==> places[0] + |q| <= places[m]
  {
    if |places| > 1 {
      var init := places[..|places| - 1];
      Increasing(s, q, init);
      assert init[0] == places[0];
      var last := |places| - 1;
      assert places[last - 1] + |q| <= places[last];
      forall m | 0 < m < |places| ensures places[0] + |q| <= places[m] {
        if m < last {
          assert init[m] == places[m];
        }
      }
    }
  }

  function Repeat(q: string, n: nat): string {
    if n == 0 then "" else q + Repeat(q, n - 1)
  }

  /** Disjoint occurrences fit into the text; they fill it exactly when it is q repeated. */
  lemma {:induction false} CountFits(s: string, q: string)
    requires q != ""
    ensures Count(s, q) * |q| <= |s|
    ensures Count(s, q) * |q| == |s| <==> s == Repeat(q, Count(s, q))
    decreases |s|
  {
    hide Find, Repeat;
    var k := Find(s, q);
    RepeatLength(q, Count(s, q));
    if k >= 0 {
      var rest := s[k + |q|..];
      CountFits(rest, q);
      OneMore(Count(rest, q), |q|);
      RepeatStep(q, Count(rest, q));
      assert s == s[..k] + q + rest;
    }
  }

  lemma OneMore(n: nat, k: nat)
    ensures (n + 1) * k == n * k + k
  {
  }

  lemma RepeatStep(q: string, n: nat)
    ensures Repeat(q, n + 1) == q + Repeat(q, n)
  {
  }

  lemma {:induction false} RepeatLength(q: string, n: nat)
    ensures |Repeat(q, n)| == n * |q|
  {
    if n > 0 {
      RepeatLength(q, n - 1);
    }
  }

  // ----- Results -----

  datatype Hit = Hit(index: nat, score: real, snippet: string, content: string)

  /** What one document contributes; None when it does not match. */
  ghost predicate IsHitOf(docs: seq<string>, query: string, h: Hit)
    requires query != ""
  {
    && h.index < |docs| && h.content == docs[h.index] && h.content != ""
    && var count := Count(ToLower(h.content), ToLower(query));
    && count > 0
    && h.score == Ratio(count * |query|, |h.content|)
    && IsSnippet(h.content, query, h.snippet)
  }

  const BEFORE := 20
  const AFTER := 60

  /** The window from 20 characters before the first match to 60 after it, as far as the text goes. */
  ghost predicate IsSnippet(content: string, query: string, snippet: string) {
    exists start: nat, end: nat :: Window(content, query, start, end) && snippet == content[start..end]
  }

  ghost predicate Window(content: string, query: string, start: nat, end: nat) {
    && var idx := Find(ToLower(content), ToLower(query));
    && 0 <= start <= idx <= idx + |query| <= end <= |content|
    && ((start == 0 && idx <= 20) || start + 20 == idx)
    && (end == |content| <= idx + |query| + 60 || end == idx + |query| + 60)
  }

  lemma SliceOfSlice(s: string, start: nat, end: nat, i: nat, j: nat)
    requires start <= end <= |s| && i <= j <= end - start
    ensures s[start..end][i..j] == s[start + i..start + j]
  {
    var a, b := s[start..end][i..j], s[start + i..start + j];
    assert |a| == |b| && forall k :: 0 <= k < |a| ==> a[k] == b[k];
  }

  function Min(a: int, b: int): int {
    if a < b then a else b
  }

  /** The match, and what the window keeps of the text on either side of it. */
  function SnippetLength(content: string, query: string): int {
    var idx := Find(ToLower(content), ToLower(query));
    Min(idx, BEFORE) + |query| + Min(|content| - idx - |query|, AFTER)
  }

  /** The documented length. */
  const DOCUMENTED_LENGTH := 80

  /** The exact length of a snippet: it keeps the documented bound of 80 characters exactly
      when the match and what is kept on either side of it add up to no more. */
  lemma SnippetLengthIs(content: string, query: string, snippet: string)
    requires IsSnippet(content, query, snippet)
    ensures |snippet| == SnippetLength(content, query) <= |query| + 80
    ensures |snippet| <= DOCUMENTED_LENGTH <==> SnippetLength(content, query) <= DOCUMENTED_LENGTH
  {
  }

  /** One character with enough text on either side gives a snippet of 81. */
  lemma LongSnippet(snippet: string)
    requires IsSnippet(Padded(), "q", snippet)
    ensures |snippet| == DOCUMENTED_LENGTH + 1
  {
    hide Find, ToLower;
    var s := ToLower(Padded());
    assert ToLower("q") == "q";
    assert OccursAt(s, "q", BEFORE) by {
      assert s[BEFORE..BEFORE + |"q"|] == [s[BEFORE]] == "q";
    }
    forall i: nat | i < BEFORE ensures !OccursAt(s, "q", i) {
      assert s[i..i + |"q"|][0] == s[i] == '.';
    }
    assert Find(s, "q") == BEFORE;
  }

  function Padded(): (s: string)
    ensures |s| == BEFORE + 1 + AFTER
    ensures forall i :: 0 <= i < |s| ==> s[i] == if i == BEFORE then 'q' else '.'
  {
    seq(BEFORE + 1 + AFTER, i => if i == BEFORE then 'q' else '.')
  }

  /** The snippet of a hit has the first match whole, at most 20 characters in. */
  lemma SnippetShowsMatch(content: string, query: string, snippet: string)
    requires IsSnippet(content, query, snippet)
    ensures 0 <= Find(ToLower(snippet), ToLower(query)) <= 20
  {
    var start: nat, end: nat :| Window(content, query, start, end) && snippet == content[start..end];
    LowerSlice(content, start, end);
    FindInSlice(ToLower(content), ToLower(query), start, end);
  }

  lemma LowerSlice(s: string, i: nat, j: nat)
    requires i <= j <= |s|
    ensures ToLower(s[i..j]) == ToLower(s)[i..j]
  {
    hide LowerChar, ToLower;
  }

  /** The first occurrence is found in any slice that holds it. */
  lemma FindInSlice(s: string, q: string, start: nat, end: nat)
    requires end <= |s| && start <= Find(s, q) <= end - |q|
    ensures 0 <= Find(s[start..end], q) <= Find(s, q) - start
  {
    hide Find, OccursAt;
    OccursInSlice(s, q, start, end, Find(s, q) - start);
  }

  lemma OccursInSlice(s: string, q: string, start: nat, end: nat, place: nat)
    requires end <= |s| && OccursAt(s, q, start + place) && start + place + |q| <= end
    ensures OccursAt(s[start..end], q, place)
  {
    SliceOfSlice(s, start, end, place, place + |q|);
  }

  /** Scores lie in (0,1], and 1 means the text is the query repeated. */
  lemma ScoreBounds(docs: seq<string>, query: string, h: Hit)
    requires query != "" && IsHitOf(docs, query, h)
    ensures 0.0 < h.score <= 1.0
    ensures h.score == 1.0 <==> exists n: nat :: ToLower(h.content) == Repeat(ToLower(query), n)
  {
    hide Find, Repeat, Count, ToLower;
    var s, q := ToLower(h.content), ToLower(query);
    var n := Count(s, q);
    CountFits(s, q);
    RatioBounds(n * |query|, |h.content|);
    if m: nat :| s == Repeat(q, m) {
      CountOfRepeat(q, m);
    }
  }

  /** The documented score, matches divided by text length, is the one computed exactly for a
      query of one character. */
  lemma DocumentedScore(docs: seq<string>, query: string, h: Hit)
    requires query != "" && IsHitOf(docs, query, h)
    ensures h.score == Ratio(Count(ToLower(h.content), ToLower(query)), |h.content|) <==> |query| == 1
  {
    hide Find, Count, ToLower, IsSnippet;
    var n := Count(ToLower(h.content), ToLower(query));
    RatioBounds(n * |query|, |h.content|);
    RatioBounds(n, |h.content|);
    if |query| > 1 {
      LongerIsMore(n, |query|);
    }
  }

  lemma LongerIsMore(n: nat, k: nat)
    requires n > 0 && k > 1
    ensures n * k > n
  {
    assert n * k == n * (k - 1) + n;
  }

  lemma {:induction false} CountOfRepeat(q: string, n: nat)
    requires q != ""
    ensures Count(Repeat(q, n), q) == n
  {
    if n > 0 {
      var s := Repeat(q, n);
      assert s[..|q|] == q && s[|q|..] == Repeat(q, n - 1);
      assert OccursAt(s, q, 0);
      CountOfRepeat(q, n - 1);
    }
  }

  // ----- Sorting -----

  /** Higher score first; equal scores in document order. */
  predicate Before(x: Hit, y: Hit) {
    x.score > y.score || (x.score == y.score && x.index < y.index)
  }

  ghost predicate Ranked(s: seq<Hit>) {
    forall i, j :: 0 <= i < j < |s| ==> Before(s[i], s[j])
  }

  /** x moves left past everything with a lower score. */
  function Inserted(s: seq<Hit>, x: Hit): seq<Hit> {
    if s != [] && x.score > s[|s| - 1].score then Inserted(s[..|s| - 1], x) + [s[|s| - 1]] else s + [x]
  }

  function InsertionSorted(s: seq<Hit>): seq<Hit> {
    if s == [] then [] else Inserted(InsertionSorted(s[..|s| - 1]), s[|s| - 1])
  }

  lemma {:induction false} InsertedLength(s: seq<Hit>, x: Hit)
    ensures |Inserted(s, x)| == |s| + 1
  {
    if s != [] && x.score > s[|s| - 1].score {
      InsertedLength(s[..|s| - 1], x);
    }
  }

  lemma {:induction false} SortedLength(s: seq<Hit>)
    ensures |InsertionSorted(s)| == |s|
  {
    if s != [] {
      SortedLength(s[..|s| - 1]);
      InsertedLength(InsertionSorted(s[..|s| - 1]), s[|s| - 1]);
    }
  }

  method InsertionSort(a: array<Hit>)
    modifies a
    ensures a[..] == InsertionSorted(old(a[..]))
  {
    ghost var was := a[..];
    if a.Length == 0 {
      return;
    }
    assert was == was[..1] + was[1..];
    for i := 1 to a.Length
      invariant a[..] == InsertionSorted(was[..i]) + was[i..]
    {
      hide InsertionSorted;
      SortedLength(was[..i]);
      assert was[i..] == [was[i]] + was[i + 1..];
      MoveLeft(a, i, InsertionSorted(was[..i]), was[i], was[i + 1..]);
      SortedStep(was, i);
    }
    assert was[..a.Length] == was && was[a.Length..] == [];
  }

  lemma SortedStep(was: seq<Hit>, i: nat)
    requires i < |was|
    ensures InsertionSorted(was[..i + 1]) == Inserted(InsertionSorted(was[..i]), was[i])
  {
    assert was[..i + 1][..i] == was[..i];
  }

  /** The inner loop: neighbours are exchanged until the left one does not score lower. */
  method MoveLeft(a: array<Hit>, i: nat, ghost s: seq<Hit>, ghost x: Hit, ghost tail: seq<Hit>)
    requires 0 < i == |s| && a[..] == s + [x] + tail
    modifies a
    ensures a[..] == Inserted(s, x) + tail
  {
    hide Inserted;
    var j := i;
    assert s[..i] == s && s[i..] == [];
    AroundPlace(s, x, tail, j);
    while j > 0 && a[j].score > a[j - 1].score
      invariant 0 <= j <= i && a[..] == Moved(s, x, tail, j)
      invariant Inserted(s, x) == Inserted(s[..j], x) + s[j..]
    {
      hide Moved;
      AroundPlace(s, x, tail, j);
      assert a[j] == a[..][j] && a[j - 1] == a[..][j - 1];
      InsertedStep(s, x, j);
      ExchangeLeft(s, x, tail, j);
      a[j], a[j - 1] := a[j - 1], a[j];
      j := j - 1;
      AroundPlace(s, x, tail, j);
    }
    assert j > 0 ==> a[j] == a[..][j] && a[j - 1] == a[..][j - 1];
    Stays(s[..j], x);
  }

  /** The array contents while x stands at place j. */
  ghost function Moved(s: seq<Hit>, x: Hit, tail: seq<Hit>, j: nat): seq<Hit>
    requires j <= |s|
  {
    s[..j] + [x] + s[j..] + tail
  }

  lemma AroundPlace(s: seq<Hit>, x: Hit, tail: seq<Hit>, j: nat)
    requires j <= |s|
    ensures var a := Moved(s, x, tail, j);
            |a| == |s| + 1 + |tail| && a[j] == x && (j > 0 ==> a[j - 1] == s[j - 1])
  {
  }

  lemma Stays(s: seq<Hit>, x: Hit)
    requires s != [] ==> x.score <= s[|s| - 1].score
    ensures Inserted(s, x) == s + [x]
  {
  }

  lemma InsertedStep(s: seq<Hit>, x: Hit, j: nat)
    requires 0 < j <= |s| && x.score > s[j - 1].score
    ensures Inserted(s[..j], x) + s[j..] == Inserted(s[..j - 1], x) + s[j - 1..]
  {
    assert s[..j][..j - 1] == s[..j - 1];
    assert s[j - 1..] == [s[j - 1]] + s[j..];
  }

  lemma ExchangeLeft(s: seq<Hit>, x: Hit, tail: seq<Hit>, j: nat)
    requires 0 < j <= |s|
    ensures |Moved(s, x, tail, j)| > j && Moved(s, x, tail, j)[j := s[j - 1]][j - 1 := x] == Moved(s, x, tail, j - 1)
  {
    var b, c := Moved(s, x, tail, j)[j := s[j - 1]][j - 1 := x], Moved(s, x, tail, j - 1);
    assert |b| == |c|;
    forall k | 0 <= k < |b| ensures b[k] == c[k] {
    }
  }

  lemma {:induction false} InsertedRanked(s: seq<Hit>, x: Hit)
    requires Ranked(s) && forall y :: y in s ==> y.index < x.index
    ensures Ranked(Inserted(s, x))
  {
    if s != [] && x.score > s[|s| - 1].score {
      var init, last := s[..|s| - 1], s[|s| - 1];
      InsertedRanked(init, x);
      var moved := Inserted(init, x);
      forall k | 0 <= k < |moved| ensures Before(moved[k], last) {
        InsertedFrom(init, x, k);
      }
    } else {
      forall k | 0 <= k < |s| ensures Before(s[k], x) {
        assert s[k] in s;
        assert k < |s| - 1 ==> Before(s[k], s[|s| - 1]);
      }
    }
  }

  lemma {:induction false} InsertedFrom(s: seq<Hit>, x: Hit, k: nat)
    requires k < |Inserted(s, x)|
    ensures Inserted(s, x)[k] == x || exists m :: 0 <= m < |s| && s[m] == Inserted(s, x)[k]
  {
    if s != [] && x.score > s[|s| - 1].score && k < |Inserted(s, x)| - 1 {
      InsertedFrom(s[..|s| - 1], x, k);
    }
  }

  lemma {:induction false} InsertedElements(s: seq<Hit>, x: Hit)
    ensures multiset(Inserted(s, x)) == multiset(s) + multiset{x}
  {
    if s != [] && x.score > s[|s| - 1].score {
      InsertedElements(s[..|s| - 1], x);
      assert s == s[..|s| - 1] + [s[|s| - 1]];
    }
  }

  /** On hits in document order the insertion sort is the stable descending sort. */
  lemma {:induction false} SortRanks(s: seq<Hit>)
    requires forall i, j :: 0 <= i < j < |s| ==> s[i].index < s[j].index
    ensures Ranked(InsertionSorted(s)) && Permuted(InsertionSorted(s), s)
  {
    if s != [] {
      var init, last := s[..|s| - 1], s[|s| - 1];
      SortRanks(init);
      forall y | y in InsertionSorted(init) ensures y.index < last.index {
        assert y in multiset(init);
      }
      InsertedRanked(InsertionSorted(init), last);
      InsertedElements(InsertionSorted(init), last);
      assert s == init + [last];
    }
  }

  // ----- QueryRAG -----

  /** full ranks exactly the matching documents, one hit each. */
  ghost predicate IsRanking(docs: seq<string>, query: string, full: seq<Hit>)
    requires query != ""
  {
    Ranked(full) && (forall h :: h in full ==> IsHitOf(docs, query, h)) && Covers(docs, query, full)
  }

  ghost predicate Covers(docs: seq<string>, query: string, hits: seq<Hit>)
    requires query != ""
  {
    forall i :: 0 <= i < |docs| && Matches(docs[i], query) ==> HasIndex(hits, i)
  }

  ghost predicate HasIndex(hits: seq<Hit>, i: nat) {
    exists h :: h in hits && h.index == i
  }

  /** The query occurs, ignoring case. */
  ghost predicate Matches(content: string, query: string) {
    exists i: nat :: OccursAt(ToLower(content), ToLower(query), i)
  }

  /** limit <= 0 means no cap. */
  function Capped<T>(s: seq<T>, limit: int): seq<T> {
    if limit > 0 && |s| > limit then s[..limit] else s
  }

  ghost predicate IsAnswer(docs: seq<string>, query: string, limit: int, results: seq<Hit>) {
    if query == "" then results == []
    else exists full :: IsRanking(docs, query, full) && results == Capped(full, limit)
  }

  datatype Symbol = Symbol(file: string, line: int, column: int, name: string, body: string)

  predicate AtOrAfter(line: int, column: int, line': int, column': int) {
    line' > line || (line' == line && column' >= column)
  }

  predicate Eligible(s: Symbol, file: string, line: int, column: int) {
    s.file == file && AtOrAfter(line, column, s.line, s.column)
  }

  /** Place b holds an eligible symbol; every other eligible one is no closer, and a tie is later. */
  ghost predicate IsClosest(symbols: seq<Symbol>, file: string, line: int, column: int, b: nat) {
    && b < |symbols| && Eligible(symbols[b], file, line, column)
    && forall k :: 0 <= k < |symbols| && Eligible(symbols[k], file, line, column) ==>
         && AtOrAfter(symbols[b].line, symbols[b].column, symbols[k].line, symbols[k].column)
         && (symbols[k].line == symbols[b].line && symbols[k].column == symbols[b].column ==> b <= k)
  }

  /** One document of the loop. */
  method HitOf(docs: seq<string>, query: string, i: nat) returns (hit: Option<Hit>)
    requires i < |docs| && query != ""
    ensures hit == None ==> !Matches(docs[i], query)
    ensures hit.Some? ==> hit.value.index == i && IsHitOf(docs, query, hit.value)
  {
    var q, lc := ToLower(query), ToLower(docs[i]);
    var count := Count(lc, q);
    if count == 0 {
      return None;
    }
    CountFits(lc, q);
    var denom := |docs[i]|;
    if denom <= 0 {
      denom := 1;
    }
    assert count * |query| > 0;
    RatioBounds(count * |query|, denom);
    var score := Ratio(count * |query|, denom);
    if score > 1.0 {
      score := 1.0;
    }
    var snippet := SnippetOf(docs[i], query);
    return Some(Hit(i, score, snippet, docs[i]));
  }

  method SnippetOf(content: string, query: string) returns (snippet: string)
    requires Find(ToLower(content), ToLower(query)) >= 0
    ensures IsSnippet(content, query, snippet)
  {
    var q := ToLower(query);
    var idx := Find(ToLower(content), q);
    var start := idx - BEFORE;
    if start < 0 {
      start := 0;
    }
    var end := idx + |q| + AFTER;
    if end > |content| {
      end := |content|;
    }
    snippet := content[start..end];
    assert Window(content, query, start, end);
  }

  /** hits holds one hit for each match among the first n documents, in document order. */
  ghost predicate HitsUpTo(docs: seq<string>, query: string, hits: seq<Hit>, n: nat)
    requires query != "" && n <= |docs|
  {
    && (forall i, j :: 0 <= i < j < |hits| ==> hits[i].index < hits[j].index)
    && (forall h :: h in hits ==> h.index < n && IsHitOf(docs, query, h))
    && (forall i :: 0 <= i < n && Matches(docs[i], query) ==> HasIndex(hits, i))
  }

  lemma NextHit(docs: seq<string>, query: string, hits: seq<Hit>, n: nat, hit: Option<Hit>)
    requires query != "" && n < |docs| && HitsUpTo(docs, query, hits, n)
    requires hit == None ==> !Matches(docs[n], query)
    requires hit.Some? ==> hit.value.index == n && IsHitOf(docs, query, hit.value)
    ensures hit == None ==> HitsUpTo(docs, query, hits, n + 1)
    ensures hit.Some? ==> HitsUpTo(docs, query, hits + [hit.value], n + 1)
  {
    hide IsHitOf, Matches;
    if hit.Some? {
      var more := hits + [hit.value];
      forall i | 0 <= i < n + 1 && Matches(docs[i], query) ensures HasIndex(more, i) {
        if i < n {
          var h :| h in hits && h.index == i;
          assert h in more;
        } else {
          assert hit.value in more;
        }
      }
      forall k | 0 <= k < |hits| ensures hits[k].index < n {
        assert hits[k] in hits;
      }
    }
  }

  lemma SortIsRanking(docs: seq<string>, query: string, hits: seq<Hit>)
    requires query != "" && HitsUpTo(docs, query, hits, |docs|)
    ensures IsRanking(docs, query, InsertionSorted(hits))
  {
    hide IsHitOf, Matches;
    var full := InsertionSorted(hits);
    SortRanks(hits);
    assert forall h :: h in full <==> h in multiset(full);
    forall i | 0 <= i < |docs| && Matches(docs[i], query) ensures HasIndex(full, i) {
      var h :| h in hits && h.index == i;
      assert h in multiset(hits);
      assert h in full;
    }
  }

  class ToolIntegration {
    var ragDocs: seq<string>
    var symbols: seq<Symbol>

    constructor ()
      ensures ragDocs == [] && symbols == []
    {
      ragDocs, symbols := [], [];
    }

    method AddRAGDocument(content: string) returns (ok: bool)
      modifies this
      ensures ok == (content != "")
      ensures ragDocs == if ok then old(ragDocs) + [content] else old(ragDocs)
      ensures symbols == old(symbols)
    {
      if content == "" {
        return false;
      }
      ragDocs := ragDocs + [content];
      return true;
    }

    /** cancelled(0) is the check on entry and cancelled(i + 1) the one before document i. */
    method QueryRAG(query: string, limit: int, cancelled: nat -> bool) returns (r: Result<seq<Hit>>)
      ensures r.Err? <==> cancelled(0) || (query != "" && exists i: nat :: 0 < i <= |ragDocs| && cancelled(i))
      ensures r.Ok? ==> IsAnswer(ragDocs, query, limit, r.value)
    {
      hide IsHitOf, Matches;
      if cancelled(0) {
        return Err;
      }
      if query == "" {
        return Ok([]);
      }
      if |ragDocs| == 0 {
        assert IsRanking(ragDocs, query, []);
        return Ok([]);
      }
      var hits: seq<Hit> := [];
      for i := 0 to |ragDocs|
        invariant HitsUpTo(ragDocs, query, hits, i)
        invariant forall k: nat :: k <= i ==> !cancelled(k)
      {
        if cancelled(i + 1) {
          return Err;
        }
        var hit := HitOf(ragDocs, query, i);
        NextHit(ragDocs, query, hits, i, hit);
        if hit == None {
          continue;
        }
        hits := hits + [hit.value];
      }
      var results := new Hit[|hits|](i requires 0 <= i < |hits| => hits[i]);
      assert results[..] == hits;
      InsertionSort(results);
      SortIsRanking(ragDocs, query, hits);
      return Ok(Capped(results[..], limit));
    }

    method IndexSymbol(s: Symbol) returns (ok: bool)
      modifies this
      ensures ok == (s.name != "" && s.file != "")
      ensures symbols == if ok then old(symbols) + [s] else old(symbols)
      ensures ragDocs == old(ragDocs)
    {
      if s.name == "" {
        return false;
      }
      if s.file == "" {
        return false;
      }
      symbols := symbols + [s];
      return true;
    }

    /** The first indexed of the closest symbols at or after the position. */
    method GetCodeDefinition(file: string, line: int, column: int, cancelled: nat -> bool)
      returns (r: Result<Option<Symbol>>)
      ensures r.Err? <==> exists i: nat :: i <= |symbols| && cancelled(i)
      ensures r == Ok(None) ==> forall k :: 0 <= k < |symbols| ==> !Eligible(symbols[k], file, line, column)
      ensures r.Ok? && r.value.Some? ==>
                exists b: nat :: IsClosest(symbols, file, line, column, b) && symbols[b] == r.value.value
    {
      if cancelled(0) {
        return Err;
      }
      var best: Option<nat> := None;
      for i := 0 to |symbols|
        invariant best == None ==> forall k :: 0 <= k < i ==> !Eligible(symbols[k], file, line, column)
        invariant best.Some? ==> best.value < i && IsClosest(symbols[..i], file, line, column, best.value)
        invariant forall k: nat :: k <= i ==> !cancelled(k)
      {
        if cancelled(i + 1) {
          return Err;
        }
        var s := symbols[i];
        if s.file != file {
          continue;
        }
        if s.line < line {
          continue;
        }
        if s.line == line && s.column < column {
          continue;
        }
        if best == None {
          best := Some(i);
          continue;
        }
        var b := symbols[best.value];
        if s.line < b.line || (s.line == b.line && s.column < b.column) {
          best := Some(i);
        }
      }
      assert symbols[..|symbols|] == symbols;
      match best
      case None => return Ok(None);
      case Some(b) => return Ok(Some(symbols[b]));
    }
  }

  // ----- The answer is determined -----

  lemma OneHit(docs: seq<string>, query: string, g: Hit, h: Hit)
    requires query != "" && IsHitOf(docs, query, g) && IsHitOf(docs, query, h) && g.index == h.index
    ensures g == h
  {
  }

  lemma InOther(docs: seq<string>, query: string, a: seq<Hit>, b: seq<Hit>)
    requires query != "" && IsRanking(docs, query, a) && IsRanking(docs, query, b)
    ensures forall h :: h in a ==> h in b
  {
    forall h | h in a ensures h in b {
      assert HasIndex(b, h.index);
      var g :| g in b && g.index == h.index;
      OneHit(docs, query, g, h);
    }
  }

  lemma {:induction false} RankedUnique(a: seq<Hit>, b: seq<Hit>)
    requires Ranked(a) && Ranked(b) && forall h :: h in a <==> h in b
    ensures a == b
  {
    assert a != [] ==> a[0] in b;
    assert b != [] ==> b[0] in a;
    if a != [] && b != [] {
      FirstIsSame(a, b);
      assert a == [a[0]] + a[1..] && b == [b[0]] + b[1..];
      assert a[0] !in a[1..] && b[0] !in b[1..];
      forall h ensures h in a[1..] <==> h in b[1..] {
        assert h in a <==> h == a[0] || h in a[1..];
        assert h in b <==> h == b[0] || h in b[1..];
      }
      RankedUnique(a[1..], b[1..]);
    }
  }

  lemma FirstIsSame(a: seq<Hit>, b: seq<Hit>)
    requires a != [] && b != [] && Ranked(a) && Ranked(b) && forall h :: h in a <==> h in b
    ensures a[0] == b[0]
  {
    assert a[0] in b && b[0] in a;
    var i :| 0 <= i < |b| && b[i] == a[0];
    var j :| 0 <= j < |a| && a[j] == b[0];
    assert forall k :: 0 < k < |b| ==> Before(b[0], b[k]);
    assert forall k :: 0 < k < |a| ==> Before(a[0], a[k]);
  }

  /** Documents, query and limit determine the answer. */
  lemma OneAnswer(docs: seq<string>, query: string, limit: int, a: seq<Hit>, b: seq<Hit>)
    requires IsAnswer(docs, query, limit, a) && IsAnswer(docs, query, limit, b)
    ensures a == b
  {
    if query != "" {
      var f :| IsRanking(docs, query, f) && a == Capped(f, limit);
      var g :| IsRanking(docs, query, g) && b == Capped(g, limit);
      InOther(docs, query, f, g);
      InOther(docs, query, g, f);
      RankedUnique(f, g);
    }
  }

  // ----- The answer read off the documents -----

  ghost function MatchingDocs(docs: seq<string>, query: string): set<nat> {
    set i: nat | i < |docs| && Matches(docs[i], query)
  }

  ghost function IndexSet(hits: seq<Hit>): set<nat> {
    set h | h in hits :: h.index
  }

  lemma {:induction false} IndexSetSize(hits: seq<Hit>)
    requires Ranked(hits) && forall g, h :: g in hits && h in hits && g.index == h.index ==> g == h
    ensures |IndexSet(hits)| == |hits|
  {
    if hits != [] {
      var last := |hits| - 1;
      IndexSetSize(hits[..last]);
      assert hits == hits[..last] + [hits[last]];
      assert IndexSet(hits) == IndexSet(hits[..last]) + {hits[last].index};
      forall k | 0 <= k < last ensures hits[k].index != hits[last].index {
        assert hits[k] in hits && hits[last] in hits && Before(hits[k], hits[last]);
      }
    }
  }

  lemma HitMatches(docs: seq<string>, query: string, h: Hit)
    requires query != "" && IsHitOf(docs, query, h)
    ensures h.index in MatchingDocs(docs, query)
  {
    var s, q := ToLower(h.content), ToLower(query);
    assert Find(s, q) >= 0 && OccursAt(s, q, Find(s, q));
  }

  lemma RankingSize(docs: seq<string>, query: string, full: seq<Hit>)
    requires query != "" && IsRanking(docs, query, full)
    ensures |full| == |MatchingDocs(docs, query)|
  {
    forall g, h | g in full && h in full && g.index == h.index ensures g == h {
      OneHit(docs, query, g, h);
    }
    hide IsHitOf, Matches, Before;
    IndexSetSize(full);
    forall h | h in full ensures h.index in MatchingDocs(docs, query) {
      HitMatches(docs, query, h);
    }
    forall i | i in MatchingDocs(docs, query) ensures i in IndexSet(full) {
      assert HasIndex(full, i);
    }
    assert IndexSet(full) == MatchingDocs(docs, query);
  }

  /** The results are hits, best first: as many as there are matching documents, but no more
      than a positive limit. A matching document is left out only when the limit is reached,
      and then ranks below everything returned. */
  lemma BestMatchesReturned(docs: seq<string>, query: string, limit: int, results: seq<Hit>)
    requires query != "" && IsAnswer(docs, query, limit, results)
    ensures forall h :: h in results ==> IsHitOf(docs, query, h)
    ensures forall i, j :: 0 <= i < j < |results| ==>
              || results[i].score > results[j].score
              || (results[i].score == results[j].score && results[i].index < results[j].index)
    ensures var matching := |MatchingDocs(docs, query)|;
            |results| == if 0 < limit < matching then limit else matching
    ensures forall h :: IsHitOf(docs, query, h) && h !in results ==>
              && |results| == limit
              && forall k :: 0 <= k < |results| ==>
                   || results[k].score > h.score
                   || (results[k].score == h.score && results[k].index < h.index)
  {
    var full: seq<Hit> :| IsRanking(docs, query, full) && results == Capped(full, limit);
    RankingSize(docs, query, full);
    forall h | IsHitOf(docs, query, h)
      ensures exists k :: 0 <= k < |full| && full[k] == h
    {
      HitMatches(docs, query, h);
      var g :| g in full && g.index == h.index;
      OneHit(docs, query, g, h);
    }
    hide IsHitOf, MatchingDocs, Covers;
    assert results <= full;
  }
}
