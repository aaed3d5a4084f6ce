/** The wisdom store of reflexion/reflexion.go and the miner that fills it from episodes
    that share a root cause. */
module Mining {
  import opened Wrappers
  import opened Fractions
  import opened Ordering
  import opened Permutations
  import opened Text
  import opened Reflexion

  // ----- Group keys -----

  /** The first word long enough to be a token, or "". */
  function FirstToken(words: seq<string>): (t: string)
    ensures t == "" <==> forall w :: w in words ==> |w| < MIN_TOKEN
    ensures t != "" ==> t in words && |t| >= MIN_TOKEN
  {
    if words == [] then ""
    else if |words[0]| >= MIN_TOKEN then words[0]
    else FirstToken(words[1..])
  }

  function Cause(ep: Episode): string {
    match ep.reflection
    case None => ""
    case Some(r) => Trim(r.rootCause)
  }

  /** The trimmed root cause, or else the first token of the failure analysis. */
  function GroupKey(ep: Episode): string {
    if Cause(ep) != "" then Cause(ep) else FirstToken(Fields(ToLower(ep.failureAnalysis)))
  }

  method EpisodeGroupKey(ep: Episode) returns (key: string)
    ensures key == GroupKey(ep)
  {
    hide Fields, ToLower, Trim;
    if ep.reflection.Some? {
      var rc := Trim(ep.reflection.value.rootCause);
      if rc != "" {
        return rc;
      }
    }
    var words := Fields(ToLower(ep.failureAnalysis));
    for i := 0 to |words|
      invariant FirstToken(words) == FirstToken(words[i..])
    {
      if |words[i]| >= MIN_TOKEN {
        return words[i];
      }
    }
    return "";
  }

  /** An episode has no key exactly when it has no root cause and no token to fall back on. */
  lemma KeylessEpisode(ep: Episode)
    ensures GroupKey(ep) == "" <==> Cause(ep) == "" && Tokens(ep.failureAnalysis) == {}
  {
    hide Fields, ToLower;
    var words := Fields(ToLower(ep.failureAnalysis));
    forall w | w in words ensures |w| >= MIN_TOKEN ==> w in Tokens(ep.failureAnalysis) {
    }
    forall w | w in Tokens(ep.failureAnalysis) ensures w in words && |w| >= MIN_TOKEN {
    }
  }

  lemma {:induction false} FirstTokenPlace(words: seq<string>) returns (k: nat)
    requires FirstToken(words) != ""
    ensures k < |words| && words[k] == FirstToken(words) && |words[k]| >= 3
    ensures forall m :: 0 <= m < k ==> |words[m]| < 3
  {
    if |words[0]| >= MIN_TOKEN {
      k := 0;
    } else {
      var m := FirstTokenPlace(words[1..]);
      k := m + 1;
      assert forall l :: 0 < l < k ==> words[l] == words[1..][l - 1];
    }
  }

  /** s[i..j] is the first run of at least three letters and digits. */
  ghost predicate IsFirstLongRun(s: string, i: nat, j: nat) {
    IsRun(s, i, j) && j - i >= 3 && forall k: nat, l: nat :: IsRun(s, k, l) && k < i ==> l - k < 3
  }

  /** The key of an episode with a root cause is the root cause without the space around it; an
      episode without one has the first long enough run of its failure analysis. */
  lemma KeyOfEpisode(ep: Episode)
    ensures ep.reflection.Some? && !IsBlank(ep.reflection.value.rootCause) ==>
              GroupKey(ep) == Trim(ep.reflection.value.rootCause)
    ensures (ep.reflection == None || IsBlank(ep.reflection.value.rootCause)) && GroupKey(ep) != "" ==>
              var text := ToLower(ep.failureAnalysis);
              exists i: nat, j: nat :: IsFirstLongRun(text, i, j) && text[i..j] == GroupKey(ep)
  {
    if ep.reflection.Some? && !IsBlank(ep.reflection.value.rootCause) {
      var before, after := TrimDropsSpace(ep.reflection.value.rootCause);
    } else {
      if ep.reflection.Some? {
        TrimOfBlank(ep.reflection.value.rootCause);
      }
      if GroupKey(ep) != "" {
        FirstRunIsKey(ep.failureAnalysis);
      }
    }
  }

  lemma FirstRunIsKey(text: string)
    requires FirstToken(Fields(ToLower(text))) != ""
    ensures var s := ToLower(text);
            exists i: nat, j: nat :: IsFirstLongRun(s, i, j) && s[i..j] == FirstToken(Fields(s))
  {
    hide Fields, ToLower, FirstToken, IsWord, IsLetterOrDigit;
    var s := ToLower(text);
    var k := FirstTokenPlace(Fields(s));
    FirstLongField(s, k);
    FieldsOfLowerCase(text);
    var i: nat, j: nat :| IsFirstLong(s, i, j) && s[i..j] == Fields(s)[k];
    assert IsFirstLongRun(s, i, j);
  }

  // ----- Groups -----

  /** The episodes with key k, in order; missing episodes are passed over. */
  ghost function Group(episodes: seq<Option<Episode>>, k: string): seq<Episode> {
    if episodes == [] then [] else
      var last := episodes[|episodes| - 1];
      Group(episodes[..|episodes| - 1], k)
      + if last.Some? && GroupKey(last.value) == k then [last.value] else []
  }

  ghost function Keys(episodes: seq<Option<Episode>>): set<string> {
    set e | e in episodes && e.Some? && GroupKey(e.value) != "" :: GroupKey(e.value)
  }

  lemma AddedEpisode(episodes: seq<Option<Episode>>, e: Option<Episode>)
    ensures e.Some? && GroupKey(e.value) != "" ==> Keys(episodes + [e]) == Keys(episodes) + {GroupKey(e.value)}
    ensures e == None || GroupKey(e.value) == "" ==> Keys(episodes + [e]) == Keys(episodes)
    ensures forall k :: Group(episodes + [e], k)
                        == Group(episodes, k) + if e.Some? && GroupKey(e.value) == k then [e.value] else []
  {
    hide GroupKey;
    var more := episodes + [e];
    assert more[..|more| - 1] == episodes;
    assert e in more;
    forall k | k in Keys(episodes) ensures k in Keys(more) {
      var x :| x in episodes && x.Some? && GroupKey(x.value) == k && k != "";
      assert x in more;
    }
  }

  lemma {:induction false} KeyedGroups(episodes: seq<Option<Episode>>, k: string)
    requires k != ""
    ensures k in Keys(episodes) <==> Group(episodes, k) != []
  {
    hide GroupKey;
    if episodes != [] {
      var init, last := episodes[..|episodes| - 1], episodes[|episodes| - 1];
      assert episodes == init + [last];
      KeyedGroups(init, k);
      AddedEpisode(init, last);
    }
  }

  method GroupEpisodes(episodes: seq<Option<Episode>>) returns (groups: map<string, seq<Episode>>)
    ensures groups.Keys == Keys(episodes)
    ensures forall k :: k in groups ==> groups[k] == Group(episodes, k)
  {
    groups := map[];
    for i := 0 to |episodes|
      invariant groups.Keys == Keys(episodes[..i])
      invariant forall k :: k in groups ==> groups[k] == Group(episodes[..i], k)
    {
      hide GroupKey;
      assert episodes[..i + 1] == episodes[..i] + [episodes[i]];
      AddedEpisode(episodes[..i], episodes[i]);
      if episodes[i] == None {
        continue;
      }
      var ep := episodes[i].value;
      var key := EpisodeGroupKey(ep);
      if key == "" {
        continue;
      }
      KeyedGroups(episodes[..i], key);
      groups := groups[key := (if key in groups then groups[key] else []) + [ep]];
    }
    assert episodes[..|episodes|] == episodes;
  }

  /** The tokens every episode of the group has. */
  ghost function Common(eps: seq<Episode>): set<string> {
    if eps == [] then {} else set t | t in Tokens(EpisodeContent(eps[0])) && InAll(eps, t)
  }

  ghost predicate InAll(eps: seq<Episode>, t: string) {
    forall e :: e in eps ==> t in Tokens(EpisodeContent(e))
  }

  method CommonTokens(eps: seq<Episode>) returns (tags: seq<string>)
    ensures tags == Sorted(Common(eps))
  {
    hide Tokens, EpisodeContent;
    if |eps| == 0 {
      return [];
    }
    var inter := Tokenize(EpisodeContent(eps[0]));
    assert eps[..1] == [eps[0]];
    for i := 1 to |eps|
      invariant forall t :: t in inter <==> t in Tokens(EpisodeContent(eps[0])) && InAll(eps[..i], t)
    {
      var toks := Tokenize(EpisodeContent(eps[i]));
      var kept := Retain(inter, toks);
      assert forall e :: e in eps[..i + 1] <==> e in eps[..i] || e == eps[i];
      inter := kept;
      if |inter| == 0 {
        assert forall t :: InAll(eps, t) ==> InAll(eps[..i + 1], t);
        assert Common(eps) == {};
        return [];
      }
    }
    assert eps[..|eps|] == eps;
    assert inter == Common(eps);
    tags := Sorted(inter);
  }

  /** Delete from a token set what the other one lacks, while ranging over it. */
  method Retain(inter: set<string>, toks: set<string>) returns (kept: set<string>)
    ensures kept == inter * toks
  {
    kept := inter;
    var todo := inter;
    while todo != {}
      invariant todo <= inter
      invariant forall t :: t in kept <==> t in inter && (t in todo || t in toks)
    {
      var t :| t in todo;
      if t !in toks {
        kept := kept - {t};
      }
      todo := todo - {t};
    }
  }

  // ----- The wisdom store -----

  function Confidence(size: nat): real {
    if size >= 5 then 1.0 else Ratio(size, 5)
  }

  class Wisdom {
    var id: string
    const pattern: string
    const frequency: nat
    const confidence: real
    const tags: seq<string>
    const description: string
    const source: string
    const domain: string
    const timestamp: int
    var useCount: nat
    var successHits: nat
    var failureHits: nat
    var successRate: real

    constructor (pattern: string, frequency: nat, confidence: real, tags: seq<string>,
                 description: string, source: string, domain: string, timestamp: int)
      ensures id == "" && this.pattern == pattern && this.frequency == frequency
      ensures this.confidence == confidence && this.tags == tags
      ensures this.description == description && this.source == source
      ensures this.domain == domain && this.timestamp == timestamp
      ensures useCount == successHits == failureHits == 0 && successRate == 0.0
    {
      id, useCount, successHits, failureHits, successRate := "", 0, 0, 0, 0.0;
      this.pattern, this.frequency, this.confidence, this.tags := pattern, frequency, confidence, tags;
      this.description, this.source, this.domain, this.timestamp := description, source, domain, timestamp;
    }
  }

  /** w is the record the miner makes of the group with key k. */
  ghost predicate IsRecord(episodes: seq<Option<Episode>>, k: string, w: Wisdom) {
    var eps := Group(episodes, k);
    w.pattern == k && w.frequency == |eps| && w.confidence == Confidence(|eps|) && w.tags == Sorted(Common(eps))
  }

  ghost predicate AreRecords(episodes: seq<Option<Episode>>, ks: seq<string>, out: seq<Wisdom>) {
    |out| == |ks| && forall i :: 0 <= i < |out| ==> IsRecord(episodes, ks[i], out[i])
  }

  /** The keys, in order, whose group has at least two episodes. */
  ghost function Recurring(episodes: seq<Option<Episode>>, keys: seq<string>): seq<string> {
    if keys == [] then [] else
      var last := keys[|keys| - 1];
      Recurring(episodes, keys[..|keys| - 1]) + if |Group(episodes, last)| >= 2 then [last] else []
  }

  ghost function Patterns(episodes: seq<Option<Episode>>): seq<string> {
    Recurring(episodes, Sorted(Keys(episodes)))
  }

  /** The first of n cancellation checks that fires, or n. */
  ghost function FirstStop(cancelled: nat -> bool, n: nat): (t: nat)
    ensures t <= n && (t < n ==> cancelled(t)) && forall s: nat :: s < t ==> !cancelled(s)
  {
    if n == 0 then 0
    else
      var t := FirstStop(cancelled, n - 1);
      if t < n - 1 || cancelled(n - 1) then t else n
  }

  function JoinTags(tags: seq<string>): string {
    if tags == [] then "" else " " + tags[0] + JoinTags(tags[1..])
  }

  function WisdomContent(w: Wisdom): string {
    w.pattern + " " + w.description + " " + w.domain + JoinTags(w.tags)
  }

  function WisdomDocuments(store: seq<Wisdom>): seq<Document> {
    seq(|store|, i requires 0 <= i < |store| => Document(WisdomContent(store[i]), store[i].timestamp))
  }

  ghost function TagTokens(tags: seq<string>): set<string> {
    if tags == [] then {} else TagTokens(tags[..|tags| - 1]) + Tokens(tags[|tags| - 1])
  }

  /** The tokens of a record: those of its pattern, its description, its domain and its tags. */
  ghost function TokensOfRecord(w: Wisdom): set<string> {
    Tokens(w.pattern) + Tokens(w.description) + Tokens(w.domain) + TagTokens(w.tags)
  }

  lemma {:induction false} JoinedTagTokens(text: string, tags: seq<string>)
    ensures Tokens(text + JoinTags(tags)) == Tokens(text) + TagTokens(tags)
    decreases |tags|
  {
    hide Tokens;
    if tags == [] {
      assert text + "" == text;
    } else {
      var init, last := tags[..|tags| - 1], tags[|tags| - 1];
      JoinedTagTokens(text, init);
      JoinTagsLast(tags);
      assert text + JoinTags(tags) == (text + JoinTags(init)) + " " + last;
      TokensOfJoin(text + JoinTags(init), last);
    }
  }

  lemma {:induction false} JoinTagsLast(tags: seq<string>)
    requires tags != []
    ensures JoinTags(tags) == JoinTags(tags[..|tags| - 1]) + " " + tags[|tags| - 1]
  {
    if |tags| > 1 {
      JoinTagsLast(tags[1..]);
      assert tags[1..][..|tags| - 2] == tags[..|tags| - 1][1..];
    }
  }

  lemma RecordTokens(w: Wisdom)
    ensures Tokens(WisdomContent(w)) == TokensOfRecord(w)
  {
    hide Tokens, JoinTags, TagTokens;
    var a := w.pattern + " " + w.description;
    JoinedTagTokens(a + " " + w.domain, w.tags);
    TokensOfJoin(a, w.domain);
    TokensOfJoin(w.pattern, w.description);
  }

  /** Which of two records is the better match: the more similar one, of equally similar ones
      the later, and of those the one stored earlier. */
  ghost predicate BetterRecord(store: seq<Wisdom>, query: string, p: nat, q: nat)
    requires p < |store| && q < |store|
  {
    var s := Similarity(Tokens(query), TokensOfRecord(store[p]));
    var t := Similarity(Tokens(query), TokensOfRecord(store[q]));
    s > t || (s == t && (store[p].timestamp > store[q].timestamp
                         || (store[p].timestamp == store[q].timestamp && p < q)))
  }

  /** What is retrieved are the best matches among the stored records that share a token with
      the query, best first; one is left out only when the limit is reached. */
  lemma BestRecords(store: seq<Wisdom>, query: string, limit: int, places: seq<nat>)
    requires IsTopK(WisdomDocuments(store), query, limit, places)
    ensures |places| <= limit
    ensures forall k :: 0 <= k < |places| ==>
              places[k] < |store| && Tokens(query) * TokensOfRecord(store[places[k]]) != {}
    ensures forall k, l :: 0 <= k < l < |places| ==> BetterRecord(store, query, places[k], places[l])
    ensures forall q: nat :: q < |store| && q !in places && Tokens(query) * TokensOfRecord(store[q]) != {} ==>
              |places| == limit && forall k :: 0 <= k < |places| ==> BetterRecord(store, query, places[k], q)
  {
    hide Tokens, WisdomContent, TokensOfRecord;
    var docs := WisdomDocuments(store);
    forall p: nat | p < |store|
      ensures ScoreAt(docs, query, p)
              == Scored(p, Similarity(Tokens(query), TokensOfRecord(store[p])), store[p].timestamp)
      ensures IsHit(docs, query, p) <==> Tokens(query) * TokensOfRecord(store[p]) != {}
    {
      RecordTokens(store[p]);
      SimilarityLaws(Tokens(query), TokensOfRecord(store[p]));
    }
    hide Similarity;
    forall k | 0 <= k < |places| ensures IsHit(docs, query, places[k]) {
      assert places[k] in places;
    }
  }

  /** What a record gets besides what its group determines: an ID and a time by its seed, a
      description of the group and the fixed source and domain. */
  ghost predicate IsIssued(w: Wisdom, group: seq<Episode>, digest: (string, nat) -> string,
                           describe: seq<Episode> -> string, clock: nat -> int, seed: nat)
    reads w
  {
    && w.id == digest(w.pattern, seed) && w.timestamp == clock(seed)
    && w.description == describe(group) && w.source == "extracted" && w.domain == "code"
  }

  /** The records are issued under consecutive seeds. */
  ghost predicate AreIssued(episodes: seq<Option<Episode>>, out: seq<Wisdom>, digest: (string, nat) -> string,
                            describe: seq<Episode> -> string, clock: nat -> int, seed: nat)
    reads out
  {
    forall i :: 0 <= i < |out| ==>
      IsIssued(out[i], Group(episodes, out[i].pattern), digest, describe, clock, seed + i)
  }

  class AccumulatedWisdom {
    var store: seq<Wisdom>
    var byID: map<string, Wisdom>
    var seedKey: nat
    /** generateWisdomID: a digest of pattern and seed with a fixed prefix, never empty. */
    const digest: (string, nat) -> string
    /** buildExtractedDescription */
    const describe: seq<Episode> -> string
    /** The time at which the record with a given seed is made. */
    const clock: nat -> int

    /** Every stored record has an ID that the index knows, and the index holds stored records
        under their own ID. */
    ghost predicate Valid()
      reads this, store
    {
      && (forall p, n :: digest(p, n) != "")
      && (forall w :: w in store ==> w.id != "" && w.id in byID)
      && (forall id :: id in byID ==> byID[id] in store && byID[id].id == id)
    }

    constructor (digest: (string, nat) -> string, describe: seq<Episode> -> string, clock: nat -> int)
      requires forall p, n :: digest(p, n) != ""
      ensures Valid() && store == [] && byID == map[] && seedKey == 0 && this.digest == digest
    {
      store, byID, seedKey := [], map[], 0;
      this.digest, this.describe, this.clock := digest, describe, clock;
    }

    method Store(w: Option<Wisdom>) returns (ok: bool)
      requires Valid()
      modifies this, if w.Some? then {w.value} else {}
      ensures Valid()
      ensures ok == w.Some?
      ensures !ok ==> unchanged(this)
      ensures ok ==> store == old(store) + [w.value] && byID == old(byID)[w.value.id := w.value]
      ensures ok && old(w.value.id) != "" ==> w.value.id == old(w.value.id) && seedKey == old(seedKey)
      ensures ok && old(w.value.id) == "" ==>
                w.value.id == digest(w.value.pattern, old(seedKey)) && seedKey == old(seedKey) + 1
      ensures ok ==> w.value.useCount == old(w.value.useCount) && w.value.successHits == old(w.value.successHits)
                     && w.value.failureHits == old(w.value.failureHits)
                     && w.value.successRate == old(w.value.successRate)
    {
      if w == None {
        return false;
      }
      var r := w.value;
      if r.id == "" {
        r.id := digest(r.pattern, seedKey);
        seedKey := seedKey + 1;
      }
      byID := byID[r.id := r];
      store := store + [r];
      return true;
    }

    /** The outcome of applying a record: its success rate is the share of successes recorded. */
    method RecordUsage(id: string, success: bool) returns (ok: bool)
      requires Valid()
      modifies store
      ensures Valid()
      ensures ok == (id in byID)
      ensures forall w :: w in store && !(ok && w == byID[id]) ==> unchanged(w)
      ensures ok ==> var w := byID[id];
                     && w.useCount == old(w.useCount) + 1 && w.id == old(w.id)
                     && w.successHits == old(w.successHits) + (if success then 1 else 0)
                     && w.failureHits == old(w.failureHits) + (if success then 0 else 1)
                     && w.successRate == Ratio(w.successHits, w.successHits + w.failureHits)
    {
      hide Ratio;
      if id !in byID {
        return false;
      }
      var w := byID[id];
      w.useCount := w.useCount + 1;
      if success {
        w.successHits := w.successHits + 1;
      } else {
        w.failureHits := w.failureHits + 1;
      }
      var total := w.successHits + w.failureHits;
      if total > 0 {
        w.successRate := Ratio(w.successHits, total);
      }
      return true;
    }

    method GetRelevantWisdom(query: string, limit: int, cancelled: nat -> bool) returns (out: seq<Wisdom>)
      ensures limit <= 0 || (exists t: nat :: t <= |store| && cancelled(t)) ==> out == []
      ensures limit > 0 && (forall t: nat :: t <= |store| ==> !cancelled(t)) ==>
                exists places :: IsTopK(WisdomDocuments(store), query, limit, places) && |out| == |places|
                  && forall k :: 0 <= k < |places| ==> places[k] < |store| && out[k] == store[places[k]]
    {
      hide IsTopK;
      var snapshot := store;
      var docs := WisdomDocuments(snapshot);
      var places := GetRelevant(docs, query, limit, cancelled);
      PlacesInRange(docs, query, limit, places);
      if places == [] {
        return [];
      }
      assert forall k :: 0 <= k < |places| ==> places[k] < |snapshot|;
      out := seq(|places|, k requires 0 <= k < |places| && places[k] < |snapshot| => snapshot[places[k]]);
    }

    /** One key: its group is passed over when it has fewer than two episodes. */
    method RecordGroup(ghost episodes: seq<Option<Episode>>, keys: seq<string>, j: nat,
                       groups: map<string, seq<Episode>>)
      returns (w: Option<Wisdom>)
      requires Valid() && j < |keys| && keys[j] in groups && groups[keys[j]] == Group(episodes, keys[j])
      modifies this
      ensures Valid()
      ensures var before := Recurring(episodes, keys[..j]);
              Recurring(episodes, keys[..j + 1]) == if w.Some? then before + [keys[j]] else before
      ensures w == None ==> store == old(store) && seedKey == old(seedKey)
      ensures w.Some? ==> fresh(w.value) && IsRecord(episodes, keys[j], w.value)
      ensures w.Some? ==> IsIssued(w.value, Group(episodes, w.value.pattern), digest, describe, clock, old(seedKey))
      ensures w.Some? ==> store == old(store) + [w.value] && seedKey == old(seedKey) + 1
    {
      hide Group, Common, Recurring;
      NextKey(episodes, keys, j);
      var k := keys[j];
      var eps := groups[k];
      if |eps| < 2 {
        return None;
      }
      var r := MakeRecord(episodes, k, eps, describe(eps), clock(seedKey));
      var ok := Store(Some(r));
      return Some(r);
    }

    /** The loop over the sorted keys; check j + 2 precedes key j. */
    method RecordGroups(ghost episodes: seq<Option<Episode>>, groups: map<string, seq<Episode>>, keys: seq<string>,
                        cancelled: nat -> bool)
      returns (out: seq<Wisdom>, done: nat)
      requires Valid() && forall k :: k in keys ==> k in groups && groups[k] == Group(episodes, k)
      modifies this
      ensures Valid()
      ensures done <= |keys| && (done < |keys| ==> cancelled(done + 2))
      ensures forall t: nat :: 2 <= t < done + 2 ==> !cancelled(t)
      ensures AreRecords(episodes, Recurring(episodes, keys[..done]), out)
      ensures store == old(store) + out && seedKey == old(seedKey) + |out|
      ensures forall i :: 0 <= i < |out| ==> fresh(out[i])
      ensures AreIssued(episodes, out, digest, describe, clock, old(seedKey))
    {
      hide Group, IsRecord, Recurring, AreRecords, AreIssued, IsIssued, Valid;
      NoKeyYet(episodes, keys);
      NoneIssued(episodes, digest, describe, clock, seedKey);
      out, done := [], 0;
      while done < |keys|
        invariant Valid() && done <= |keys|
        invariant AreRecords(episodes, Recurring(episodes, keys[..done]), out)
        invariant store == old(store) + out && seedKey == old(seedKey) + |out|
        invariant forall i :: 0 <= i < |out| ==> fresh(out[i])
        invariant AreIssued(episodes, out, digest, describe, clock, old(seedKey))
        invariant forall t: nat :: 2 <= t < done + 2 ==> !cancelled(t)
      {
        if cancelled(done + 2) {
          return;
        }
        assert keys[done] in keys;
        var w := RecordGroup(episodes, keys, done, groups);
        if w.Some? {
          AddIssued(episodes, out, digest, describe, clock, old(seedKey), w.value);
          AddRecord(episodes, Recurring(episodes, keys[..done]), out, keys[done], w.value);
          out := out + [w.value];
        }
        done := done + 1;
      }
    }

    /** Checks 0 and 1 surround the grouping. Whatever happens, the records made before the
        first check that fires are returned and stored, and no others. */
    method ExtractFromEpisodes(episodes: seq<Option<Episode>>, cancelled: nat -> bool)
      returns (out: seq<Wisdom>, cancelledEarly: bool)
      requires Valid()
      modifies this
      ensures Valid()
      ensures var keys := Sorted(Keys(episodes));
              var t := FirstStop(cancelled, |keys| + 2);
              && cancelledEarly == (t < |keys| + 2)
              && AreRecords(episodes, Recurring(episodes, if t < 2 then [] else keys[..t - 2]), out)
      ensures !cancelledEarly ==> AreRecords(episodes, Patterns(episodes), out)
      ensures store == old(store) + out && seedKey == old(seedKey) + |out|
      ensures forall i :: 0 <= i < |out| ==> fresh(out[i])
      ensures AreIssued(episodes, out, digest, describe, clock, old(seedKey))
    {
      hide *;
      NoKeyYet(episodes, Sorted(Keys(episodes)));
      NoneIssued(episodes, digest, describe, clock, seedKey);
      if cancelled(0) {
        return [], true;
      }
      var groups := GroupEpisodes(episodes);
      if cancelled(1) {
        return [], true;
      }
      var keys := Sorted(groups.Keys);
      forall k | k in keys ensures k in groups {
        assert k in groups.Keys;
      }
      var done: nat;
      out, done := RecordGroups(episodes, groups, keys, cancelled);
      AllKeys(episodes);
      return out, done < |keys|;
    }
  }

  method MakeRecord(ghost episodes: seq<Option<Episode>>, k: string, eps: seq<Episode>, description: string, now: int)
    returns (w: Wisdom)
    requires eps == Group(episodes, k)
    ensures fresh(w) && w.id == "" && IsRecord(episodes, k, w) && w.pattern == k
    ensures w.description == description && w.source == "extracted" && w.domain == "code" && w.timestamp == now
  {
    var confidence := Ratio(|eps|, 5);
    if confidence > 1.0 {
      confidence := 1.0;
    }
    var tags := CommonTokens(eps);
    w := new Wisdom(k, |eps|, confidence, tags, description, "extracted", "code", now);
  }

  lemma AddRecord(episodes: seq<Option<Episode>>, ks: seq<string>, out: seq<Wisdom>, k: string, w: Wisdom)
    requires AreRecords(episodes, ks, out) && IsRecord(episodes, k, w)
    ensures AreRecords(episodes, ks + [k], out + [w])
  {
  }

  lemma AddIssued(episodes: seq<Option<Episode>>, out: seq<Wisdom>, digest: (string, nat) -> string,
                  describe: seq<Episode> -> string, clock: nat -> int, seed: nat, w: Wisdom)
    requires AreIssued(episodes, out, digest, describe, clock, seed)
    requires IsIssued(w, Group(episodes, w.pattern), digest, describe, clock, seed + |out|)
    ensures AreIssued(episodes, out + [w], digest, describe, clock, seed)
  {
    hide IsIssued;
  }

  lemma NoneIssued(episodes: seq<Option<Episode>>, digest: (string, nat) -> string,
                   describe: seq<Episode> -> string, clock: nat -> int, seed: nat)
    ensures AreIssued(episodes, [], digest, describe, clock, seed)
  {
  }

  lemma NoKeyYet(episodes: seq<Option<Episode>>, keys: seq<string>)
    ensures keys[..0] == [] && Recurring(episodes, []) == [] && AreRecords(episodes, [], [])
  {
  }

  lemma AllKeys(episodes: seq<Option<Episode>>)
    ensures var keys := Sorted(Keys(episodes)); Patterns(episodes) == Recurring(episodes, keys[..|keys|])
  {
    var keys := Sorted(Keys(episodes));
    assert keys[..|keys|] == keys;
  }

  lemma NextKey(episodes: seq<Option<Episode>>, keys: seq<string>, j: nat)
    requires j < |keys|
    ensures Recurring(episodes, keys[..j + 1])
            == Recurring(episodes, keys[..j]) + if |Group(episodes, keys[j])| >= 2 then [keys[j]] else []
  {
    assert keys[..j + 1][..j] == keys[..j];
  }

  // ----- What the miner finds -----

  lemma {:induction false} RecurringKeys(episodes: seq<Option<Episode>>, keys: seq<string>)
    requires Ascending(keys)
    ensures Ascending(Recurring(episodes, keys))
    ensures forall k :: k in Recurring(episodes, keys) <==> k in keys && |Group(episodes, k)| >= 2
  {
    if keys != [] {
      var init, last := keys[..|keys| - 1], keys[|keys| - 1];
      assert keys == init + [last];
      RecurringKeys(episodes, init);
      var before := Recurring(episodes, init);
      forall i | 0 <= i < |before| ensures Less(before[i], last) {
        assert before[i] in before;
        var m :| 0 <= m < |init| && init[m] == before[i];
        assert keys[m] == before[i];
      }
    }
  }

  /** The patterns are the keys shared by at least two episodes, in ascending order, once each. */
  lemma PatternsAreRecurringKeys(episodes: seq<Option<Episode>>)
    ensures Ascending(Patterns(episodes))
    ensures forall k :: k in Patterns(episodes) <==> k != "" && |Group(episodes, k)| >= 2
  {
    RecurringKeys(episodes, Sorted(Keys(episodes)));
    forall k ensures k in Patterns(episodes) <==> k != "" && |Group(episodes, k)| >= 2 {
      if k != "" {
        KeyedGroups(episodes, k);
      }
    }
  }

  /** The number of episodes whose key is among ks. */
  ghost function CountIn(episodes: seq<Option<Episode>>, ks: seq<string>): nat {
    if episodes == [] then 0 else
      var last := episodes[|episodes| - 1];
      CountIn(episodes[..|episodes| - 1], ks) + if last.Some? && GroupKey(last.value) in ks then 1 else 0
  }

  ghost function TotalFrequency(out: seq<Wisdom>): nat {
    if out == [] then 0 else TotalFrequency(out[..|out| - 1]) + out[|out| - 1].frequency
  }

  lemma {:induction false} OneMoreKey(episodes: seq<Option<Episode>>, ks: seq<string>, k: string)
    requires k !in ks
    ensures CountIn(episodes, ks + [k]) == CountIn(episodes, ks) + |Group(episodes, k)|
  {
    hide GroupKey;
    if episodes != [] {
      OneMoreKey(episodes[..|episodes| - 1], ks, k);
    }
  }

  lemma {:induction false} NoKeys(episodes: seq<Option<Episode>>)
    ensures CountIn(episodes, []) == 0
  {
    if episodes != [] {
      NoKeys(episodes[..|episodes| - 1]);
    }
  }

  /** The frequencies of records with different keys add up to the number of episodes with
      one of these keys, however far the miner got. */
  lemma {:induction false} FrequenciesPartition(episodes: seq<Option<Episode>>, ks: seq<string>, out: seq<Wisdom>)
    requires AreRecords(episodes, ks, out) && Ascending(ks)
    ensures TotalFrequency(out) == CountIn(episodes, ks)
    decreases |ks|
  {
    if ks == [] {
      NoKeys(episodes);
    } else {
      var n := |ks| - 1;
      var init, last := ks[..n], ks[n];
      assert ks == init + [last];
      FrequenciesPartition(episodes, init, out[..n]);
      LessIrreflexive(last);
      OneMoreKey(episodes, init, last);
      assert IsRecord(episodes, last, out[n]);
    }
  }

  /** How many of these episodes have a key that at least two of all episodes have. */
  ghost function RecurringCount(all: seq<Option<Episode>>, episodes: seq<Option<Episode>>): nat {
    if episodes == [] then 0 else
      var last := episodes[|episodes| - 1];
      RecurringCount(all, episodes[..|episodes| - 1])
      + if last.Some? && GroupKey(last.value) != "" && |Group(all, GroupKey(last.value))| >= 2 then 1 else 0
  }

  lemma {:induction false} CountInPatterns(all: seq<Option<Episode>>, episodes: seq<Option<Episode>>)
    ensures CountIn(episodes, Patterns(all)) == RecurringCount(all, episodes)
  {
    hide Patterns, GroupKey, Group;
    PatternsAreRecurringKeys(all);
    if episodes != [] {
      CountInPatterns(all, episodes[..|episodes| - 1]);
    }
  }

  /** Frequencies add up to the number of episodes whose key occurs at least twice: no such
      episode is missed and none is counted twice. */
  lemma FrequenciesAddUp(episodes: seq<Option<Episode>>, out: seq<Wisdom>)
    requires AreRecords(episodes, Patterns(episodes), out)
    ensures TotalFrequency(out) == RecurringCount(episodes, episodes)
  {
    hide Patterns, AreRecords;
    PatternsAreRecurringKeys(episodes);
    FrequenciesPartition(episodes, Patterns(episodes), out);
    CountInPatterns(episodes, episodes);
  }

  /** The group of k holds exactly the episodes with key k. */
  lemma {:induction false} MembersOfGroup(episodes: seq<Option<Episode>>, k: string)
    ensures forall e :: e in Group(episodes, k) <==> Some(e) in episodes && GroupKey(e) == k
  {
    hide GroupKey;
    if episodes != [] {
      var init, last := episodes[..|episodes| - 1], episodes[|episodes| - 1];
      assert episodes == init + [last];
      MembersOfGroup(init, k);
    }
  }

  /** The tags of a record are, in ascending order, exactly the tokens that occur in every
      episode with its pattern as key. */
  lemma TagsAreShared(episodes: seq<Option<Episode>>, k: string, w: Wisdom)
    requires IsRecord(episodes, k, w) && Group(episodes, k) != []
    ensures Ascending(w.tags)
    ensures forall t :: t in w.tags <==>
              forall e :: Some(e) in episodes && GroupKey(e) == k ==> t in Tokens(EpisodeContent(e))
  {
    hide GroupKey, Tokens, EpisodeContent;
    MembersOfGroup(episodes, k);
    var eps := Group(episodes, k);
    assert eps[0] in eps;
    forall t ensures t in w.tags <==> InAll(eps, t) {
    }
  }

  /** A record's confidence lies in (0,1] and is 1 from five episodes on. */
  lemma RecordConfidence(episodes: seq<Option<Episode>>, k: string, w: Wisdom)
    requires IsRecord(episodes, k, w) && Group(episodes, k) != []
    ensures 0.0 < w.confidence <= 1.0
    ensures w.confidence == 1.0 <==> w.frequency >= 5
    ensures w.frequency <= 5 ==> w.confidence * 5.0 == w.frequency as real
  {
    hide Group, Common;
    var n := |Group(episodes, k)|;
    RatioBounds(n, 5);
  }

  // ----- Order of the episodes -----

  lemma {:induction false} GroupOfConcat(a: seq<Option<Episode>>, b: seq<Option<Episode>>, k: string)
    ensures Group(a + b, k) == Group(a, k) + Group(b, k)
  {
    hide GroupKey;
    if b == [] {
      assert a + b == a;
    } else {
      var n := |b| - 1;
      GroupOfConcat(a, b[..n], k);
      assert (a + b)[..|a + b| - 1] == a + b[..n];
    }
  }

  lemma {:induction false} GroupSizeIgnoresOrder(a: seq<Option<Episode>>, b: seq<Option<Episode>>, k: string)
    requires Permuted(a, b)
    ensures |Group(a, k)| == |Group(b, k)|
    decreases |a|
  {
    hide Group;
    if a == [] {
      assert |multiset(b)| == |b|;
    } else {
      var n := |a| - 1;
      assert a == a[..n] + [a[n]];
      assert a[n] in multiset(b);
      var m :| 0 <= m < |b| && b[m] == a[n];
      var front, back := b[..m], b[m + 1..];
      assert b == front + [a[n]] + back;
      WithoutOne(a[..n], a[n], front, back);
      GroupSizeIgnoresOrder(a[..n], front + back, k);
      GroupOfConcat(a[..n], [a[n]], k);
      GroupOfConcat(front, back, k);
      GroupOfConcat(front + [a[n]], back, k);
      GroupOfConcat(front, [a[n]], k);
    }
  }

  lemma AscendingUnique(a: seq<string>, b: seq<string>)
    requires Ascending(a) && Ascending(b) && forall x :: x in a <==> x in b
    ensures a == b
  {
    SameFrom(a, b);
  }

  lemma {:induction false} SameFrom(a: seq<string>, b: seq<string>)
    requires Ascending(a) && Ascending(b) && forall x :: x in a <==> x in b
    ensures a == b
  {
    assert a != [] ==> a[0] in b;
    assert b != [] ==> b[0] in a;
    if a != [] && b != [] {
      SameFirst(a, b);
      assert a == [a[0]] + a[1..] && b == [b[0]] + b[1..];
      LessIrreflexive(a[0]);
      forall x ensures x in a[1..] <==> x in b[1..] {
        assert x in a <==> x == a[0] || x in a[1..];
        assert x in b <==> x == b[0] || x in b[1..];
      }
      SameFrom(a[1..], b[1..]);
    }
  }

  lemma SameFirst(a: seq<string>, b: seq<string>)
    requires a != [] && b != [] && Ascending(a) && Ascending(b) && a[0] in b && b[0] in a
    ensures a[0] == b[0]
  {
    if a[0] != b[0] {
      LessAsymmetric(a[0], b[0]);
    }
  }

  /** Mining the same episodes in another order finds the same patterns with the same
      frequencies, confidences and tags. */
  lemma MiningIgnoresOrder(a: seq<Option<Episode>>, b: seq<Option<Episode>>, v: seq<Wisdom>, w: seq<Wisdom>)
    requires Permuted(a, b)
    requires AreRecords(a, Patterns(a), v) && AreRecords(b, Patterns(b), w)
    ensures |v| == |w|
    ensures forall i :: 0 <= i < |v| ==> && v[i].pattern == w[i].pattern && v[i].frequency == w[i].frequency
                                         && v[i].confidence == w[i].confidence && v[i].tags == w[i].tags
  {
    hide Patterns, Group, GroupKey, Common;
    PatternsAreRecurringKeys(a);
    PatternsAreRecurringKeys(b);
    forall k ensures |Group(a, k)| == |Group(b, k)| {
      GroupSizeIgnoresOrder(a, b, k);
    }
    AscendingUnique(Patterns(a), Patterns(b));
    forall i | 0 <= i < |v|
      ensures v[i].pattern == w[i].pattern && v[i].frequency == w[i].frequency
      ensures v[i].confidence == w[i].confidence && v[i].tags == w[i].tags
    {
      assert IsRecord(a, Patterns(a)[i], v[i]) && IsRecord(b, Patterns(b)[i], w[i]);
      assert Patterns(a)[i] in Patterns(a);
      SameTags(a, b, Patterns(a)[i]);
    }
  }

  lemma SameTags(a: seq<Option<Episode>>, b: seq<Option<Episode>>, k: string)
    requires Permuted(a, b) && Group(a, k) != [] && Group(b, k) != []
    ensures Common(Group(a, k)) == Common(Group(b, k))
  {
    hide GroupKey, Tokens, EpisodeContent;
    var ga, gb := Group(a, k), Group(b, k);
    MembersOfGroup(a, k);
    MembersOfGroup(b, k);
    assert forall e :: e in a <==> e in multiset(a);
    assert forall e :: e in b <==> e in multiset(b);
    assert forall e :: e in ga <==> e in gb;
    assert ga[0] in ga && gb[0] in gb;
    forall t ensures t in Common(ga) <==> t in Common(gb) {
      assert InAll(ga, t) <==> InAll(gb, t);
    }
  }
}
