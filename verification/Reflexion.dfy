/** Tokens, similarity, the bounded episode memory and top-k retrieval of
    reflexion/reflexion.go. Scores are exact rationals, as reals. */
module Reflexion {
  import opened Wrappers
  import opened Fractions
  import opened Text

  // ----- Tokens -----

  predicate IsWord(c: char) {
    'a' <= c <= 'z' || 'A' <= c <= 'Z' || '0' <= c <= '9'
  }

  /** The longest prefix of word characters. */
  function WordLength(s: string): (n: nat)
    ensures n <= |s|
    ensures forall i :: 0 <= i < n ==> IsWord(s[i])
    ensures n < |s| ==> !IsWord(s[n])
  {
    if s != "" && IsWord(s[0]) then 1 + WordLength(s[1..]) else 0
  }

  /** strings.FieldsFunc splitting at everything that is not a word character. */
  function Fields(s: string): seq<string>
    decreases |s|
  {
    if s == "" then []
    else
      var n := WordLength(s);
      if n == 0 then Fields(s[1..]) else [s[..n]] + Fields(s[n..])
  }

  /** s[i..j] is a maximal run of word characters. */
  ghost predicate IsField(s: string, i: nat, j: nat) {
    && i < j <= |s| && (forall k :: i <= k < j ==> IsWord(s[k]))
    && (i > 0 ==> !IsWord(s[i - 1])) && (j < |s| ==> !IsWord(s[j]))
  }

  /** Fields are exactly the maximal runs of word characters. */
  lemma {:induction false} FieldsAreRuns(s: string, w: string)
    ensures w in Fields(s) <==> exists i: nat, j: nat :: IsField(s, i, j) && s[i..j] == w
    decreases |s|
  {
    if s != "" {
      var n := WordLength(s);
      var skip := if n == 0 then 1 else n;
      var rest := s[skip..];
      FieldsAreRuns(rest, w);
      if i: nat, j: nat :| IsField(rest, i, j) && rest[i..j] == w {
        RunAfter(s, skip, i, j);
      }
      if n > 0 && w == s[..n] {
        assert IsField(s, 0, n) && s[0..n] == w;
      }
      if i: nat, j: nat :| IsField(s, i, j) && s[i..j] == w && i >= skip {
        RunInRest(s, skip, i, j);
      }
    }
  }

  lemma RunAfter(s: string, skip: nat, i: nat, j: nat)
    requires s != "" && skip == (if WordLength(s) == 0 then 1 else WordLength(s))
    requires IsField(s[skip..], i, j)
    ensures IsField(s, i + skip, j + skip) && s[i + skip..j + skip] == s[skip..][i..j]
  {
    hide WordLength, IsWord;
    assert forall k :: 0 <= k < |s| - skip ==> s[skip..][k] == s[k + skip];
    forall k | i + skip <= k < j + skip ensures IsWord(s[k]) {
      assert IsWord(s[skip..][k - skip]);
    }
    assert s[skip..][i] == s[i + skip];
  }

  lemma RunInRest(s: string, skip: nat, i: nat, j: nat)
    requires skip <= i && IsField(s, i, j)
    ensures IsField(s[skip..], i - skip, j - skip) && s[skip..][i - skip..j - skip] == s[i..j]
  {
    assert forall k :: 0 <= k < |s| - skip ==> s[skip..][k] == s[k + skip];
  }

  const MIN_TOKEN := 3

  /** The token set of a text: its lower-cased words of at least three characters. */
  ghost function Tokens(text: string): set<string> {
    set w | w in Fields(ToLower(text)) && |w| >= MIN_TOKEN
  }

  method Tokenize(text: string) returns (tokens: set<string>)
    ensures tokens == Tokens(text)
  {
    hide Fields, ToLower;
    tokens := {};
    var fields := Fields(ToLower(text));
    for i := 0 to |fields|
      invariant tokens == set w | w in fields[..i] && |w| >= MIN_TOKEN
    {
      assert fields[..i + 1] == fields[..i] + [fields[i]];
      if |fields[i]| < MIN_TOKEN {
        continue;
      }
      tokens := tokens + {fields[i]};
    }
    assert fields[..|fields|] == fields;
  }

  predicate IsLetterOrDigit(c: char) {
    'a' <= c <= 'z' || '0' <= c <= '9'
  }

  /** s[i..j] is a run of small letters and digits, with nothing of the kind on either side. */
  ghost predicate IsRun(s: string, i: nat, j: nat) {
    && i < j <= |s| && (forall k :: i <= k < j ==> IsLetterOrDigit(s[k]))
    && (i > 0 ==> !IsLetterOrDigit(s[i - 1])) && (j < |s| ==> !IsLetterOrDigit(s[j]))
  }

  lemma FieldsOfLowerCase(text: string)
    ensures forall i: nat, j: nat :: IsField(ToLower(text), i, j) <==> IsRun(ToLower(text), i, j)
  {
    assert forall k :: 0 <= k < |text| ==> (IsWord(ToLower(text)[k]) <==> IsLetterOrDigit(ToLower(text)[k]));
    hide ToLower, IsWord, IsLetterOrDigit;
  }

  /** A token is a maximal run of at least three letters and digits of the lower-cased text. */
  lemma TokenIsRun(text: string, w: string)
    ensures w in Tokens(text) <==>
              |w| >= 3 && exists i: nat, j: nat :: IsRun(ToLower(text), i, j) && ToLower(text)[i..j] == w
  {
    FieldsAreRuns(ToLower(text), w);
    FieldsOfLowerCase(text);
    hide Fields, ToLower, IsField, IsRun;
  }

  lemma {:induction false} WordLengthOfJoin(a: string, b: string)
    ensures WordLength(a + " " + b) == WordLength(a)
  {
    if a == "" {
      assert (a + " " + b)[0] == ' ';
    } else {
      assert (a + " " + b)[1..] == a[1..] + " " + b;
      WordLengthOfJoin(a[1..], b);
    }
  }

  lemma {:induction false} FieldsOfJoin(a: string, b: string)
    ensures Fields(a + " " + b) == Fields(a) + Fields(b)
    decreases |a|
  {
    hide WordLength, IsWord;
    var s := a + " " + b;
    var n := WordLength(a);
    WordLengthOfJoin(a, b);
    if a == "" {
      assert s[1..] == b;
    } else {
      var skip := if n == 0 then 1 else n;
      FieldsOfJoin(a[skip..], b);
      assert s[skip..] == a[skip..] + " " + b;
      assert n > 0 ==> s[..n] == a[..n];
    }
  }

  /** The tokens of two texts put together with a space are the tokens of either. */
  lemma TokensOfJoin(a: string, b: string)
    ensures Tokens(a + " " + b) == Tokens(a) + Tokens(b)
  {
    FieldsOfJoin(ToLower(a), ToLower(b));
    assert ToLower(" ") == " ";
    assert ToLower(a + " " + b) == ToLower(a) + " " + ToLower(b);
    hide Fields, ToLower;
  }

  /** The first field of at least three characters is the first such run in the text. */
  lemma {:induction false} FirstLongField(s: string, k: nat)
    requires k < |Fields(s)| && |Fields(s)[k]| >= 3 && forall m :: 0 <= m < k ==> |Fields(s)[m]| < 3
    ensures exists i: nat, j: nat :: IsFirstLong(s, i, j) && s[i..j] == Fields(s)[k]
    decreases |s|
  {
    var n := WordLength(s);
    if n >= 3 {
      assert k == 0 by {
        assert Fields(s)[0] == s[..n];
      }
      assert IsFirstLong(s, 0, n);
    } else {
      var skip := if n == 0 then 1 else n;
      var rest, m := s[skip..], if n == 0 then k else k - 1;
      assert n > 0 ==> Fields(s)[0] == s[..n] && Fields(s)[1..] == Fields(rest);
      forall l | 0 <= l < m ensures |Fields(rest)[l]| < 3 {
        assert Fields(rest)[l] == Fields(s)[if n == 0 then l else l + 1];
      }
      FirstLongField(rest, m);
      var i: nat, j: nat :| IsFirstLong(rest, i, j) && rest[i..j] == Fields(rest)[m];
      FirstLongAfter(s, skip, i, j);
    }
  }

  ghost predicate IsFirstLong(s: string, i: nat, j: nat) {
    IsField(s, i, j) && j - i >= 3 && forall k: nat, l: nat :: IsField(s, k, l) && k < i ==> l - k < 3
  }

  lemma FieldInPrefix(s: string, k: nat, l: nat)
    requires s != "" && IsField(s, k, l) && k < (if WordLength(s) == 0 then 1 else WordLength(s))
    ensures l - k <= WordLength(s)
  {
    hide WordLength, IsWord;
    var n := WordLength(s);
    assert IsWord(s[k]);
  }

  lemma FirstLongAfter(s: string, skip: nat, i: nat, j: nat)
    requires s != "" && WordLength(s) < 3 && skip == (if WordLength(s) == 0 then 1 else WordLength(s))
    requires IsFirstLong(s[skip..], i, j)
    ensures IsFirstLong(s, i + skip, j + skip) && s[i + skip..j + skip] == s[skip..][i..j]
  {
    hide WordLength, IsWord;
    RunAfter(s, skip, i, j);
    forall k: nat, l: nat | IsField(s, k, l) && k < i + skip ensures l - k < 3 {
      if k >= skip {
        RunInRest(s, skip, k, l);
      } else {
        FieldInPrefix(s, k, l);
      }
    }
  }

  // ----- Jaccard similarity -----

  /** Shared tokens over all tokens; 0 when a set is empty. */
  ghost function Similarity(a: set<string>, b: set<string>): real {
    Ratio(|a * b|, |a + b|)
  }

  method Jaccard(a: set<string>, b: set<string>) returns (s: real)
    ensures s == Similarity(a, b)
  {
    if |a| == 0 || |b| == 0 {
      NothingShared(a, b);
      return 0.0;
    }
    var small, large := a, b;
    if |b| < |a| {
      small, large := b, a;
    }
    var inter := CountShared(small, large);
    assert small * large == a * b;
    if inter == 0 {
      return 0.0;
    }
    var union := |a| + |b| - inter;
    return Ratio(inter, union);
  }

  method CountShared(small: set<string>, large: set<string>) returns (inter: nat)
    ensures inter == |small * large|
  {
    inter := 0;
    var todo := small;
    ghost var shared: set<string> := {};
    while todo != {}
      invariant todo <= small && inter == |shared|
      invariant forall t :: t in shared <==> t in small && t !in todo && t in large
    {
      var tok :| tok in todo;
      if tok in large {
        inter := inter + 1;
        shared := shared + {tok};
      }
      todo := todo - {tok};
    }
    assert shared == small * large;
  }

  lemma NothingShared(a: set<string>, b: set<string>)
    requires a == {} || b == {}
    ensures Similarity(a, b) == 0.0
  {
    assert a * b == {};
  }

  lemma SubsetSize(a: set<string>, b: set<string>)
    requires a <= b
    ensures |a| <= |b| && (|a| == |b| <==> a == b)
  {
    assert b == a + (b - a);
  }

  /** Similarity is symmetric, lies in [0,1], is positive exactly when a token is shared,
      and is 1 exactly for equal non-empty sets. */
  lemma SimilarityLaws(a: set<string>, b: set<string>)
    ensures Similarity(a, b) == Similarity(b, a)
    ensures 0.0 <= Similarity(a, b) <= 1.0
    ensures Similarity(a, b) > 0.0 <==> a * b != {}
    ensures Similarity(a, b) == 1.0 <==> a == b != {}
  {
    assert a * b == b * a && a + b == b + a;
    SubsetSize(a * b, a + b);
    if |a + b| > 0 {
      RatioBounds(|a * b|, |a + b|);
    }
  }

  // ----- Ranking -----

  /** A candidate: its place in the store, its similarity and its timestamp. */
  datatype Scored = Scored(index: nat, score: real, time: int)

  /** Higher similarity first, then later timestamp, then earlier insertion. */
  predicate Outranks(x: Scored, y: Scored) {
    x.score > y.score || (x.score == y.score && (x.time > y.time || (x.time == y.time && x.index < y.index)))
  }

  ghost predicate Ranked(s: seq<Scored>) {
    forall i, j :: 0 <= i < j < |s| ==> Outranks(s[i], s[j])
  }

  /** One insertion of the stable sort: x comes after everything it does not outrank. */
  function InsertRanked(x: Scored, s: seq<Scored>): seq<Scored> {
    if s == [] then [x]
    else if Outranks(x, s[0]) then [x] + s
    else [s[0]] + InsertRanked(x, s[1..])
  }

  lemma {:induction false} InsertKeepsRank(x: Scored, s: seq<Scored>)
    requires Ranked(s) && forall y :: y in s ==> y.index != x.index
    ensures Ranked(InsertRanked(x, s))
    ensures forall y :: y in InsertRanked(x, s) <==> y == x || y in s
    ensures |InsertRanked(x, s)| == |s| + 1
  {
    if s != [] {
      if Outranks(x, s[0]) {
        forall y | y in s ensures Outranks(x, y) {
        }
      } else {
        InsertKeepsRank(x, s[1..]);
        forall y | y in InsertRanked(x, s[1..]) ensures Outranks(s[0], y) {
        }
      }
    }
  }

  /** sort.SliceStable by similarity and timestamp. The candidates arrive in store order,
      so keeping equal ones in order means ranking them by index. */
  method StableSort(s: seq<Scored>) returns (sorted: seq<Scored>)
    requires forall i, j :: 0 <= i < j < |s| ==> s[i].index < s[j].index
    ensures Ranked(sorted) && |sorted| == |s|
    ensures forall y :: y in sorted <==> y in s
  {
    sorted := [];
    for i := 0 to |s|
      invariant Ranked(sorted) && |sorted| == i
      invariant forall y :: y in sorted <==> y in s[..i]
    {
      assert s[..i + 1] == s[..i] + [s[i]];
      InsertKeepsRank(s[i], sorted);
      sorted := InsertRanked(s[i], sorted);
    }
    assert s[..|s|] == s;
  }

  // ----- Retrieval -----

  /** What retrieval looks at: the text and the timestamp of each stored item. */
  datatype Document = Document(content: string, time: int)

  ghost function ScoreAt(docs: seq<Document>, query: string, i: nat): Scored {
    if i < |docs| then Scored(i, Similarity(Tokens(query), Tokens(docs[i].content)), docs[i].time)
    else Scored(i, 0.0, 0)
  }

  ghost predicate IsHit(docs: seq<Document>, query: string, i: nat) {
    ScoreAt(docs, query, i).score > 0.0
  }

  /** places are the best `limit` hits: ranked, and no hit left out outranks one returned. */
  ghost predicate IsTopK(docs: seq<Document>, query: string, limit: int, places: seq<nat>) {
    && (forall p :: p in places ==> IsHit(docs, query, p))
    && (forall k, l :: 0 <= k < l < |places| ==>
          Outranks(ScoreAt(docs, query, places[k]), ScoreAt(docs, query, places[l])))
    && |places| <= limit
    && (forall i: nat :: IsHit(docs, query, i) && i !in places ==>
          |places| == limit && forall p :: p in places ==> Outranks(ScoreAt(docs, query, p), ScoreAt(docs, query, i)))
  }

  /** The shared body of both GetRelevant functions, returning places in the store. */
  method GetRelevant(docs: seq<Document>, query: string, limit: int, cancelled: nat -> bool) returns (places: seq<nat>)
    ensures cancelled(0) || limit <= 0 ==> places == []
    ensures (exists t: nat :: t <= |docs| && cancelled(t)) ==> places == []
    ensures (forall t: nat :: t <= |docs| ==> !cancelled(t)) && limit > 0 ==> IsTopK(docs, query, limit, places)
  {
    assert HitsUpTo(docs, query, [], 0);
    hide *;
    if cancelled(0) || limit <= 0 {
      return [];
    }
    var qTokens := Tokenize(query);
    if |qTokens| == 0 {
      NoHits(docs, query);
      NoHitsNoPlaces(docs, query, limit);
      return [];
    }
    var scored: seq<Scored> := [];
    for i := 0 to |docs|
      invariant HitsUpTo(docs, query, scored, i)
      invariant forall t: nat :: t <= i ==> !cancelled(t)
    {
      if cancelled(i + 1) {
        return [];
      }
      var cTokens := Tokenize(docs[i].content);
      NextHit(docs, query, scored, i);
      HitBySimilarity(docs, query, i);
      if |cTokens| == 0 {
        NothingShared(qTokens, cTokens);
        continue;
      }
      var s := Jaccard(qTokens, cTokens);
      if s <= 0.0 {
        continue;
      }
      scored := scored + [Scored(i, s, docs[i].time)];
    }
    HitsInOrder(docs, query, scored);
    var sorted := StableSort(scored);
    places := Cut(docs, query, limit, scored, sorted);
  }

  /** scored lists the hits among the first n documents, in store order. */
  ghost predicate HitsUpTo(docs: seq<Document>, query: string, scored: seq<Scored>, n: nat)
    requires n <= |docs|
  {
    && (forall k, l :: 0 <= k < l < |scored| ==> scored[k].index < scored[l].index)
    && (forall x :: x in scored ==> x.index < n && IsHit(docs, query, x.index) && x == ScoreAt(docs, query, x.index))
    && forall i :: 0 <= i < n && IsHit(docs, query, i) ==> ScoreAt(docs, query, i) in scored
  }

  lemma NextHit(docs: seq<Document>, query: string, scored: seq<Scored>, n: nat)
    requires n < |docs| && HitsUpTo(docs, query, scored, n)
    ensures IsHit(docs, query, n) ==> HitsUpTo(docs, query, scored + [ScoreAt(docs, query, n)], n + 1)
    ensures !IsHit(docs, query, n) ==> HitsUpTo(docs, query, scored, n + 1)
  {
    hide Similarity, Tokens;
    var more := scored + [ScoreAt(docs, query, n)];
    assert forall x :: x in more <==> x in scored || x == ScoreAt(docs, query, n);
    forall k | 0 <= k < |scored| ensures scored[k].index < n {
      assert scored[k] in scored;
    }
  }

  lemma HitBySimilarity(docs: seq<Document>, query: string, i: nat)
    requires i < |docs|
    ensures var s := Similarity(Tokens(query), Tokens(docs[i].content));
            ScoreAt(docs, query, i) == Scored(i, s, docs[i].time) && (IsHit(docs, query, i) <==> s > 0.0)
  {
  }

  lemma HitsInOrder(docs: seq<Document>, query: string, scored: seq<Scored>)
    requires HitsUpTo(docs, query, scored, |docs|)
    ensures forall k, l :: 0 <= k < l < |scored| ==> scored[k].index < scored[l].index
  {
  }

  lemma NoHitsNoPlaces(docs: seq<Document>, query: string, limit: int)
    requires forall i: nat :: !IsHit(docs, query, i)
    ensures limit > 0 ==> IsTopK(docs, query, limit, [])
  {
  }

  lemma NoHits(docs: seq<Document>, query: string)
    requires Tokens(query) == {}
    ensures forall i: nat :: !IsHit(docs, query, i)
  {
    forall i: nat ensures !IsHit(docs, query, i) {
      if i < |docs| {
        NothingShared(Tokens(query), Tokens(docs[i].content));
      }
    }
  }

  method Cut(ghost docs: seq<Document>, ghost query: string, limit: int, ghost scored: seq<Scored>, sorted: seq<Scored>)
    returns (places: seq<nat>)
    requires limit > 0 && HitsUpTo(docs, query, scored, |docs|)
    requires Ranked(sorted) && forall y :: y in sorted <==> y in scored
    ensures IsTopK(docs, query, limit, places)
  {
    hide Similarity, Tokens, Outranks;
    var top := if |sorted| > limit then sorted[..limit] else sorted;
    places := seq(|top|, k requires 0 <= k < |top| => top[k].index);
    forall k | 0 <= k < |top| ensures top[k] in scored && top[k] == sorted[k] {
      assert sorted[k] in sorted;
    }
    forall m | 0 <= m < |top| ensures sorted[m].index in places {
      assert places[m] == sorted[m].index;
    }
    forall i: nat | IsHit(docs, query, i) && i !in places
      ensures |places| == limit
      ensures forall p :: p in places ==> Outranks(ScoreAt(docs, query, p), ScoreAt(docs, query, i))
    {
      assert ScoreAt(docs, query, i) in sorted;
      var m :| 0 <= m < |sorted| && sorted[m] == ScoreAt(docs, query, i);
      assert |top| <= m;
      forall p | p in places ensures Outranks(ScoreAt(docs, query, p), ScoreAt(docs, query, i)) {
        var k :| 0 <= k < |places| && places[k] == p;
        assert sorted[k] == ScoreAt(docs, query, p);
      }
    }
  }

  /** The number returned is the smaller of the limit and the number of hits. */
  lemma TopKCount(docs: seq<Document>, query: string, limit: int, places: seq<nat>)
    requires limit > 0 && IsTopK(docs, query, limit, places)
    ensures var hits := set i | 0 <= i < |docs| && IsHit(docs, query, i);
            |places| == if |hits| < limit then |hits| else limit
  {
    var hits := set i | 0 <= i < |docs| && IsHit(docs, query, i);
    var returned := PlaceSet(places);
    PlacesSize(places);
    assert returned <= hits;
    assert hits == returned + (hits - returned);
    if |places| < limit {
      assert hits - returned == {};
    }
  }

  ghost function PlaceSet(places: seq<nat>): set<nat> {
    set p | p in places
  }

  lemma {:induction false} PlacesSize(places: seq<nat>)
    requires forall k, l :: 0 <= k < l < |places| ==> places[k] != places[l]
    ensures |PlaceSet(places)| == |places|
  {
    if places != [] {
      var init, p := places[..|places| - 1], places[|places| - 1];
      PlacesSize(init);
      assert places == init + [p];
      assert PlaceSet(places) == PlaceSet(init) + {p};
    }
  }

  /** The top k is unique. */
  lemma OneTopK(docs: seq<Document>, query: string, limit: int, a: seq<nat>, b: seq<nat>)
    requires limit > 0 && IsTopK(docs, query, limit, a) && IsTopK(docs, query, limit, b)
    ensures a == b
  {
    hide Similarity, Tokens;
    TopKCount(docs, query, limit, a);
    TopKCount(docs, query, limit, b);
    SameTopUpTo(docs, query, limit, a, b, |a|);
    assert a[..|a|] == a && b[..|b|] == b;
  }

  lemma {:induction false} SameTopUpTo(docs: seq<Document>, query: string, limit: int, a: seq<nat>, b: seq<nat>, n: nat)
    requires IsTopK(docs, query, limit, a) && IsTopK(docs, query, limit, b) && |a| == |b| && n <= |a|
    ensures a[..n] == b[..n]
  {
    if n > 0 {
      var k := n - 1;
      SameTopUpTo(docs, query, limit, a, b, k);
      NotBeaten(docs, query, limit, a, b, k);
      NotBeaten(docs, query, limit, b, a, k);
      assert a[..n] == a[..k] + [a[k]] && b[..n] == b[..k] + [b[k]];
    }
  }

  /** With the same first k places, b's next place does not outrank a's. */
  lemma NotBeaten(docs: seq<Document>, query: string, limit: int, a: seq<nat>, b: seq<nat>, k: nat)
    requires IsTopK(docs, query, limit, a) && IsTopK(docs, query, limit, b)
    requires k < |a| == |b| && a[..k] == b[..k]
    ensures a[k] == b[k] || Outranks(ScoreAt(docs, query, a[k]), ScoreAt(docs, query, b[k]))
  {
    hide Similarity, Tokens;
    assert a[k] in a && b[k] in b;
    forall m | 0 <= m < k ensures a[m] == b[m] {
      assert a[..k][m] == b[..k][m];
    }
    assert forall m :: 0 <= m < k ==> a[m] != b[k];
  }

  // ----- Episodes -----

  datatype Reflection = Reflection(rootCause: string, whatWentWrong: string, whatToChangeNext: string)

  datatype Episode = Episode(
    agentID: string, taskDescription: string, failureAnalysis: string, reflection: Option<Reflection>, timestamp: int)

  function EpisodeContent(ep: Episode): string {
    ep.taskDescription + " " + ep.failureAnalysis
    + match ep.reflection
      case None => ""
      case Some(r) => " " + r.rootCause + " " + r.whatWentWrong + " " + r.whatToChangeNext
  }

  function Documents(episodes: seq<Episode>): seq<Document> {
    seq(|episodes|, i requires 0 <= i < |episodes| => Document(EpisodeContent(episodes[i]), episodes[i].timestamp))
  }

  function LastOf<T>(s: seq<T>, n: nat): seq<T> {
    if |s| > n then s[|s| - n..] else s
  }

  /** The last n of a list, or all of it, whatever comes before them. */
  lemma LastOfConcat<T>(earlier: seq<T>, latest: seq<T>, n: nat)
    requires |latest| == n || (|latest| < n && earlier == [])
    ensures LastOf(earlier + latest, n) == latest
  {
    var s := earlier + latest;
    assert s[|earlier|..] == latest;
  }

  /** The tokens of an episode: those of its texts. */
  ghost function TokensOf(ep: Episode): set<string> {
    Tokens(ep.taskDescription) + Tokens(ep.failureAnalysis)
    + match ep.reflection
      case None => {}
      case Some(r) => Tokens(r.rootCause) + Tokens(r.whatWentWrong) + Tokens(r.whatToChangeNext)
  }

  lemma EpisodeTokens(ep: Episode)
    ensures Tokens(EpisodeContent(ep)) == TokensOf(ep)
  {
    hide Tokens;
    var task, failure := ep.taskDescription, ep.failureAnalysis;
    TokensOfJoin(task, failure);
    if ep.reflection == None {
      assert EpisodeContent(ep) == task + " " + failure;
    } else {
      var r := ep.reflection.value;
      var a := task + " " + failure;
      var b := a + " " + r.rootCause;
      var c := b + " " + r.whatWentWrong;
      assert EpisodeContent(ep) == c + " " + r.whatToChangeNext;
      TokensOfJoin(a, r.rootCause);
      TokensOfJoin(b, r.whatWentWrong);
      TokensOfJoin(c, r.whatToChangeNext);
    }
  }

  /** Which of two episodes is the better match: the more similar one, of equally similar ones
      the later, and of those the one stored earlier. */
  ghost predicate BetterEpisode(episodes: seq<Episode>, query: string, p: nat, q: nat)
    requires p < |episodes| && q < |episodes|
  {
    var s, t := Similarity(Tokens(query), TokensOf(episodes[p])), Similarity(Tokens(query), TokensOf(episodes[q]));
    s > t || (s == t && (episodes[p].timestamp > episodes[q].timestamp
                         || (episodes[p].timestamp == episodes[q].timestamp && p < q)))
  }

  /** What is retrieved are the best matches among the stored episodes that share a token with
      the query, best first; one is left out only when the limit is reached. */
  lemma BestEpisodes(episodes: seq<Episode>, query: string, limit: int, places: seq<nat>)
    requires IsTopK(Documents(episodes), query, limit, places)
    ensures |places| <= limit
    ensures forall k :: 0 <= k < |places| ==>
              places[k] < |episodes| && Tokens(query) * TokensOf(episodes[places[k]]) != {}
    ensures forall k, l :: 0 <= k < l < |places| ==> BetterEpisode(episodes, query, places[k], places[l])
    ensures forall q: nat :: q < |episodes| && q !in places && Tokens(query) * TokensOf(episodes[q]) != {} ==>
              |places| == limit && forall k :: 0 <= k < |places| ==> BetterEpisode(episodes, query, places[k], q)
  {
    hide Tokens, EpisodeContent, TokensOf;
    var docs := Documents(episodes);
    forall p: nat | p < |episodes|
      ensures ScoreAt(docs, query, p)
              == Scored(p, Similarity(Tokens(query), TokensOf(episodes[p])), episodes[p].timestamp)
      ensures IsHit(docs, query, p) <==> Tokens(query) * TokensOf(episodes[p]) != {}
    {
      EpisodeTokens(episodes[p]);
      SimilarityLaws(Tokens(query), TokensOf(episodes[p]));
    }
    hide Similarity;
    forall k | 0 <= k < |places| ensures IsHit(docs, query, places[k]) {
      assert places[k] in places;
    }
  }

  ghost predicate IsReverse<T>(r: seq<T>, s: seq<T>) {
    |r| == |s| && forall k :: 0 <= k < |r| ==> r[k] == s[|s| - 1 - k]
  }

  /** Fill a new slice of the same length from its end. */
  method Reversed(tail: seq<Episode>) returns (out: seq<Episode>)
    ensures IsReverse(out, tail)
  {
    var n := |tail|;
    var reversed := new Episode[n](i requires 0 <= i < n => tail[i]);
    for i := 0 to n
      invariant forall k :: n - i <= k < n ==> reversed[k] == tail[n - 1 - k]
    {
      reversed[n - 1 - i] := tail[i];
    }
    return reversed[..];
  }

  /** EpisodicMemoryBuffer: a FIFO memory with a hard cap. */
  class EpisodicMemoryBuffer {
    const capacity: nat
    var episodes: seq<Episode>
    /** Every episode ever stored. */
    ghost var history: seq<Episode>

    /** The buffer holds exactly the latest `capacity` episodes, oldest first. */
    ghost predicate Valid()
      reads this
    {
      episodes == LastOf(history, capacity)
    }

    constructor (capacity: int)
      ensures Valid() && episodes == [] && history == []
      ensures this.capacity == if capacity < 0 then 0 else capacity
    {
      this.capacity := if capacity < 0 then 0 else capacity;
      episodes, history := [], [];
    }

    method Store(ep: Option<Episode>) returns (ok: bool)
      requires Valid()
      modifies this
      ensures Valid()
      ensures ok == ep.Some?
      ensures history == if ep.Some? then old(history) + [ep.value] else old(history)
    {
      if ep == None {
        return false;
      }
      history := history + [ep.value];
      if capacity == 0 {
        return true;
      }
      episodes := episodes + [ep.value];
      if |episodes| > capacity {
        var drop := |episodes| - capacity;
        episodes := episodes[drop..];
      }
      return true;
    }

    /** The latest n episodes, newest first. */
    method GetRecent(n: int) returns (out: seq<Episode>)
      ensures n <= 0 ==> out == []
      ensures n > 0 ==> IsReverse(out, LastOf(episodes, n))
    {
      if n <= 0 {
        return [];
      }
      var start := |episodes| - n;
      if start < 0 {
        start := 0;
      }
      var tail := episodes[start..];
      hide IsReverse;
      out := Reversed(tail);
    }

    method GetRelevantEpisodes(query: string, limit: int, cancelled: nat -> bool) returns (out: seq<Episode>)
      requires Valid()
      ensures limit <= 0 || (exists t: nat :: t <= |episodes| && cancelled(t)) ==> out == []
      ensures limit > 0 && (forall t: nat :: t <= |episodes| ==> !cancelled(t)) ==>
                exists places :: IsTopK(Documents(episodes), query, limit, places) && |out| == |places|
                  && forall k :: 0 <= k < |places| ==> places[k] < |episodes| && out[k] == episodes[places[k]]
    {
      hide IsTopK;
      var places := GetRelevant(Documents(episodes), query, limit, cancelled);
      PlacesInRange(Documents(episodes), query, limit, places);
      if places == [] {
        return [];
      }
      var snapshot := episodes;
      assert forall k :: 0 <= k < |places| ==> places[k] < |snapshot|;
      out := seq(|places|, k requires 0 <= k < |places| && places[k] < |snapshot| => snapshot[places[k]]);
    }
  }

  lemma PlacesInRange(docs: seq<Document>, query: string, limit: int, places: seq<nat>)
    ensures IsTopK(docs, query, limit, places) ==> forall k :: 0 <= k < |places| ==> places[k] < |docs|
  {
    if IsTopK(docs, query, limit, places) {
      forall k | 0 <= k < |places| ensures places[k] < |docs| {
        assert places[k] in places;
      }
    }
  }
}
