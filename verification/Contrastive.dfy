/** The contrastive analyser (testing/testing.go): an all-pairs comparison of
    execution results on exit code, stdout and stderr. */
module Contrastive {
  import opened Wrappers
  import opened Sums

  datatype ExecutionResult = ExecutionResult(exitCode: int, output: string, stderr: string)

  datatype Config = Config(threshold: real, verbose: bool)

  datatype Axis = ExitCode | Stdout | Stderr

  /** The two compared values: exit codes, or lengths in bytes. */
  datatype DivergencePair = DivergencePair(i: nat, j: nat, left: int, right: int)

  datatype Note = Diverged(i: nat, j: nat) | LowConsistency(score: real, threshold: real)

  /** One value for each axis. */
  datatype PerAxis<T> = PerAxis(exitCode: T, stdout: T, stderr: T)
  {
    function On(axis: Axis): T {
      match axis
      case ExitCode => exitCode
      case Stdout => stdout
      case Stderr => stderr
    }
  }

  datatype Report = Report(
    resultCount: nat,
    agree: PerAxis<bool>,
    divergence: PerAxis<seq<DivergencePair>>,
    consistencyScore: real,
    notes: seq<Note>)

  datatype Error = Cancelled | TooFewResults(got: nat) | NilResult(index: nat)

  type Pair = (nat, nat)

  // ----- What is listed -----

  function Shown(axis: Axis, r: ExecutionResult): int {
    match axis
    case ExitCode => r.exitCode
    case Stdout => |r.output|
    case Stderr => |r.stderr|
  }

  predicate DiffersOn(axis: Axis, r: ExecutionResult, s: ExecutionResult) {
    match axis
    case ExitCode => r.exitCode != s.exitCode
    case Stdout => r.output != s.output
    case Stderr => r.stderr != s.stderr
  }

  ghost predicate Before(p: Pair, q: Pair) {
    p.0 < q.0 || (p.0 == q.0 && p.1 < q.1)
  }

  ghost predicate InLexicographicOrder(pairs: seq<Pair>) {
    forall a, b :: 0 <= a < b < |pairs| ==> Before(pairs[a], pairs[b])
  }

  ghost predicate Differs(results: seq<ExecutionResult>, axis: Option<Axis>, p: Pair) {
    && p.0 < p.1 < |results|
    && match axis
       case None => results[p.0] != results[p.1]
       case Some(a) => DiffersOn(a, results[p.0], results[p.1])
  }

  /** pairs lists, in order, exactly the pairs before `limit` that differ: on the given
      axis, or on any axis when none is given. */
  ghost predicate ListsUpTo(results: seq<ExecutionResult>, axis: Option<Axis>, pairs: seq<Pair>, limit: Pair) {
    && InLexicographicOrder(pairs)
    && forall p :: p in pairs <==> Differs(results, axis, p) && Before(p, limit)
  }

  ghost predicate Lists(results: seq<ExecutionResult>, axis: Option<Axis>, pairs: seq<Pair>) {
    InLexicographicOrder(pairs) && forall p :: p in pairs <==> Differs(results, axis, p)
  }

  function Entry(results: seq<ExecutionResult>, axis: Axis, p: Pair): DivergencePair
    requires p.0 < |results| && p.1 < |results|
  {
    DivergencePair(p.0, p.1, Shown(axis, results[p.0]), Shown(axis, results[p.1]))
  }

  ghost function PairsOf(entries: seq<DivergencePair>): seq<Pair> {
    seq(|entries|, k requires 0 <= k < |entries| => (entries[k].i, entries[k].j))
  }

  /** Every entry shows the two values of its pair. */
  ghost predicate ShowsValues(results: seq<ExecutionResult>, axis: Axis, entries: seq<DivergencePair>) {
    forall e :: e in entries ==> e.i < |results| && e.j < |results| && e == Entry(results, axis, (e.i, e.j))
  }

  // ----- How many pairs there are -----

  ghost function Count(s: seq<ExecutionResult>, x: ExecutionResult): nat {
    if s == [] then 0 else (if s[0] == x then 1 else 0) + Count(s[1..], x)
  }

  ghost function DivergentPairs(s: seq<ExecutionResult>): int {
    if s == [] then 0 else |s| - 1 - Count(s[1..], s[0]) + DivergentPairs(s[1..])
  }

  ghost function AgreeingPairs(s: seq<ExecutionResult>): nat {
    if s == [] then 0 else Count(s[1..], s[0]) + AgreeingPairs(s[1..])
  }

  ghost function Choose2(n: int): int {
    n * (n - 1) / 2
  }

  lemma Choose2Step(n: nat)
    ensures Choose2(n + 1) == Choose2(n) + n
  {
    assert (n + 1) * n == n * (n - 1) + 2 * n;
  }

  lemma {:induction false} Choose2Natural(n: nat)
    ensures Choose2(0) == 0 <= Choose2(n)
  {
    if n > 0 {
      Choose2Step(n - 1);
      Choose2Natural(n - 1);
    }
  }

  lemma {:induction false} AllPairs(s: seq<ExecutionResult>)
    ensures AgreeingPairs(s) + DivergentPairs(s) == Choose2(|s|)
  {
    if s != [] {
      AllPairs(s[1..]);
      Choose2Step(|s| - 1);
    }
  }

  ghost function Classes(s: seq<ExecutionResult>): set<ExecutionResult> {
    set x | x in s
  }

  ghost function PairsInClass(s: seq<ExecutionResult>): ExecutionResult -> int {
    x => Choose2(Count(s, x))
  }

  lemma {:induction false} CountIn(s: seq<ExecutionResult>, x: ExecutionResult)
    ensures Count(s, x) <= |s| && (Count(s, x) > 0 <==> x in s)
    ensures Count(s, x) == |s| <==> forall y :: y in s ==> y == x
  {
    if s != [] {
      CountIn(s[1..], x);
      assert s[0] in s;
      assert forall y :: y in s <==> y == s[0] || y in s[1..];
    }
  }

  /** The agreeing pairs are the pairs inside the classes of identical results. */
  lemma {:induction false} AgreeingPairsAreInClasses(s: seq<ExecutionResult>, classes: set<ExecutionResult>)
    requires Classes(s) <= classes
    ensures AgreeingPairs(s) == Sum(classes, PairsInClass(s))
  {
    if s == [] {
      SumConstant(classes, PairsInClass(s), 0);
    } else {
      var x, t := s[0], s[1..];
      assert x in classes && Classes(t) <= classes;
      AgreeingPairsAreInClasses(t, classes);
      Choose2Step(Count(t, x));
      SumRemove(classes, PairsInClass(s), x);
      SumRemove(classes, PairsInClass(t), x);
      SumSame(classes - {x}, PairsInClass(s), PairsInClass(t));
    }
  }

  ghost predicate AllIdentical(s: seq<ExecutionResult>) {
    forall x, y :: x in s && y in s ==> x == y
  }

  /** Unless all n results are identical, at least n-1 pairs diverge. */
  lemma {:induction false} DivergenceBound(s: seq<ExecutionResult>)
    ensures 0 <= DivergentPairs(s)
    ensures AllIdentical(s) ==> DivergentPairs(s) == 0
    ensures !AllIdentical(s) ==> DivergentPairs(s) >= |s| - 1
  {
    if s != [] {
      var x, t := s[0], s[1..];
      assert x in s && forall y :: y in s <==> y == x || y in t;
      DivergenceBound(t);
      CountIn(t, x);
    }
  }

  // ----- The score -----

  function Score(divergent: int, n: nat): real {
    if n * (n - 1) / 2 > 0 then 1.0 - divergent as real / (n * (n - 1) / 2) as real else 1.0
  }

  lemma ScoreOrder(d: int, e: int, n: nat)
    requires n >= 2
    ensures Choose2(n) > 0
    ensures d <= e ==> Score(d, n) >= Score(e, n)
    ensures Score(0, n) == 1.0 && Score(Choose2(n), n) == 0.0
    ensures Score(n - 1, n) == 1.0 - 2.0 / n as real < 1.0
  {
    var pairs := Choose2(n);
    assert n * (n - 1) >= 2 && n * (n - 1) % 2 == 0 by {
      EvenProduct(n);
    }
    assert 2 * pairs == n * (n - 1);
    TwoOverN(n, pairs);
  }

  lemma {:induction false} EvenProduct(n: nat)
    requires n >= 2
    ensures n * (n - 1) >= 2 && n * (n - 1) % 2 == 0
  {
    if n > 2 {
      EvenProduct(n - 1);
      assert n * (n - 1) == (n - 1) * (n - 2) + 2 * (n - 1);
    }
  }

  lemma TwoOverN(n: nat, pairs: int)
    requires n >= 2 && 2 * pairs == n * (n - 1)
    ensures (n - 1) as real / pairs as real == 2.0 / n as real
  {
    var a, b, p := n as real, (n - 1) as real, pairs as real;
    assert 2.0 * p == a * b by {
      assert (n * (n - 1)) as real == a * b;
    }
    assert b / p == 2.0 / a by {
      assert b * a == 2.0 * p;
    }
  }

  /** The score is 1 when all results are identical, and otherwise at most 1 - 2/n. */
  lemma ConsistencyScoreGap(results: seq<ExecutionResult>)
    requires |results| >= 2
    ensures 0.0 <= Score(DivergentPairs(results), |results|) <= 1.0
    ensures AllIdentical(results) ==> Score(DivergentPairs(results), |results|) == 1.0
    ensures !AllIdentical(results) ==>
              Score(DivergentPairs(results), |results|) <= 1.0 - 2.0 / |results| as real < 1.0
  {
    var n, d := |results|, DivergentPairs(results);
    DivergenceBound(results);
    AllPairs(results);
    hide Score, Choose2, DivergentPairs, AgreeingPairs, AllIdentical;
    ScoreOrder(0, d, n);
    ScoreOrder(n - 1, d, n);
    ScoreOrder(d, Choose2(n), n);
  }

  // ----- The loops -----

  /** The report under construction. */
  datatype Draft = Draft(agree: PerAxis<bool>, divergence: PerAxis<seq<DivergencePair>>,
                         divergentPairs: nat, notes: seq<Note>)

  ghost predicate AxisSoFar(results: seq<ExecutionResult>, axis: Axis, agree: bool,
                            entries: seq<DivergencePair>, limit: Pair)
  {
    && ListsUpTo(results, Some(axis), PairsOf(entries), limit)
    && ShowsValues(results, axis, entries)
    && (agree <==> entries == [])
  }

  ghost predicate NotesOf(verbose: bool, pairs: seq<Pair>, notes: seq<Note>) {
    && |notes| == (if verbose then |pairs| else 0)
    && forall k :: 0 <= k < |notes| ==> notes[k] == Diverged(pairs[k].0, pairs[k].1)
  }

  ghost predicate SoFar(verbose: bool, results: seq<ExecutionResult>, d: Draft, pairs: seq<Pair>, limit: Pair) {
    && (forall axis :: AxisSoFar(results, axis, d.agree.On(axis), d.divergence.On(axis), limit))
    && ListsUpTo(results, None, pairs, limit) && d.divergentPairs == |pairs|
    && NotesOf(verbose, pairs, d.notes)
  }

  /** Comparing one pair on one axis. */
  method CompareOn(results: seq<ExecutionResult>, axis: Axis, i: nat, j: nat, agree: bool, entries: seq<DivergencePair>)
    returns (agree': bool, entries': seq<DivergencePair>, differs: bool)
    requires i < j < |results| && AxisSoFar(results, axis, agree, entries, (i, j))
    ensures AxisSoFar(results, axis, agree', entries', (i, j + 1))
    ensures differs == DiffersOn(axis, results[i], results[j])
  {
    agree', entries', differs := agree, entries, false;
    if DiffersOn(axis, results[i], results[j]) {
      agree', differs := false, true;
      entries' := entries + [Entry(results, axis, (i, j))];
      assert PairsOf(entries') == PairsOf(entries) + [(i, j)];
    }
  }

  lemma AddNote(verbose: bool, pairs: seq<Pair>, notes: seq<Note>, p: Pair)
    requires NotesOf(verbose, pairs, notes)
    ensures NotesOf(verbose, pairs + [p], if verbose then notes + [Diverged(p.0, p.1)] else notes)
  {
  }

  /** Comparing one pair on the three axes. */
  method ComparePair(verbose: bool, results: seq<ExecutionResult>, i: nat, j: nat, d: Draft, ghost pairs: seq<Pair>)
    returns (d': Draft, ghost pairs': seq<Pair>)
    requires i < j < |results| && SoFar(verbose, results, d, pairs, (i, j))
    ensures SoFar(verbose, results, d', pairs', (i, j + 1))
    ensures d'.divergentPairs == d.divergentPairs + if results[i] != results[j] then 1 else 0
  {
    hide AxisSoFar, ListsUpTo, NotesOf, DiffersOn;
    var agreeExit, exits, d1 := CompareOn(results, ExitCode, i, j, d.agree.On(ExitCode), d.divergence.On(ExitCode));
    var agreeOut, outs, d2 := CompareOn(results, Stdout, i, j, d.agree.On(Stdout), d.divergence.On(Stdout));
    var agreeErr, errs, d3 := CompareOn(results, Stderr, i, j, d.agree.On(Stderr), d.divergence.On(Stderr));
    DivergesOnSome(results, pairs, i, j);
    AddNote(verbose, pairs, d.notes, (i, j));
    pairs' := pairs;
    d' := Draft(PerAxis(agreeExit, agreeOut, agreeErr),
                PerAxis(exits, outs, errs), d.divergentPairs, d.notes);
    if d1 || d2 || d3 {
      pairs' := pairs + [(i, j)];
      d' := d'.(divergentPairs := d.divergentPairs + 1,
                notes := if verbose then d.notes + [Diverged(i, j)] else d.notes);
    }
  }

  /** What Analyze promises: per axis the diverging pairs in lexicographic order and
      whether there are none, the score from the number of pairs that diverge on any
      axis, and notes. */
  ghost predicate IsReport(cfg: Option<Config>, results: seq<ExecutionResult>, r: Report) {
    && r.resultCount == |results|
    && (forall axis ::
          && Lists(results, Some(axis), PairsOf(r.divergence.On(axis)))
          && ShowsValues(results, axis, r.divergence.On(axis))
          && (r.agree.On(axis) <==> r.divergence.On(axis) == []))
    && r.consistencyScore == Score(DivergentPairs(results), |results|)
    && exists pairs, notes :: Lists(results, None, pairs) && |pairs| == DivergentPairs(results)
         && NotesOf(cfg != None && cfg.value.verbose, pairs, notes)
         && r.notes == notes + LowNote(cfg, r.consistencyScore)
  }

  function LowNote(cfg: Option<Config>, score: real): seq<Note> {
    if cfg != None && cfg.value.threshold > 0.0 && score < cfg.value.threshold
    then [LowConsistency(score, cfg.value.threshold)] else []
  }

  method Analyze(cfg: Option<Config>, cancelled: nat -> bool, results: seq<Option<ExecutionResult>>)
    returns (r: Option<Report>, err: Option<Error>)
    ensures r == None <==> err != None
    ensures err == Some(Cancelled) ==>
              cancelled(0) || exists t: nat :: 1 <= t <= Choose2(|results|) && cancelled(t)
    ensures r != None ==> forall t: nat :: t <= Choose2(|results|) ==> !cancelled(t)
    ensures cancelled(0) ==> err == Some(Cancelled)
    ensures !cancelled(0) && |results| < 2 ==> err == Some(TooFewResults(|results|))
    ensures !cancelled(0) && |results| >= 2 && (exists i :: 0 <= i < |results| && results[i] == None) ==>
              exists i :: 0 <= i < |results| && results[i] == None && err == Some(NilResult(i))
                          && forall k :: 0 <= k < i ==> results[k] != None
    ensures err != None && err != Some(Cancelled) ==>
              |results| < 2 || exists i :: 0 <= i < |results| && results[i] == None
    ensures r != None ==> |results| >= 2 && (forall i :: 0 <= i < |results| ==> results[i] != None)
                          && IsReport(cfg, seq(|results|, i requires 0 <= i < |results| => results[i].value), r.value)
  {
    if cancelled(0) {
      return None, Some(Cancelled);
    }
    if |results| < 2 {
      return None, Some(TooFewResults(|results|));
    }
    for i := 0 to |results|
      invariant forall k :: 0 <= k < i ==> results[k] != None
    {
      if results[i] == None {
        return None, Some(NilResult(i));
      }
    }
    var values := seq(|results|, i requires 0 <= i < |results| => results[i].value);
    r, err := Compare(cfg, cancelled, values);
  }

  method Compare(cfg: Option<Config>, cancelled: nat -> bool, results: seq<ExecutionResult>)
    returns (r: Option<Report>, err: Option<Error>)
    requires |results| >= 2
    ensures r == None ==> err == Some(Cancelled) && exists t: nat :: 1 <= t <= Choose2(|results|) && cancelled(t)
    ensures r != None ==> err == None && IsReport(cfg, results, r.value)
    ensures r != None ==> forall t: nat :: 1 <= t <= Choose2(|results|) ==> !cancelled(t)
  {
    hide SoFar, Choose2, Count, DivergentPairs;
    var n := |results|;
    var verbose := cfg != None && cfg.value.verbose;
    var d := Draft(PerAxis(true, true, true),
                   PerAxis([], [], []), 0, []);
    ghost var pairs: seq<Pair> := [];
    var tick: nat := 1;
    NothingListed(verbose, results, d);
    for i := 0 to n
      invariant SoFar(verbose, results, d, pairs, (i, i + 1))
      invariant d.divergentPairs + DivergentPairs(results[i..]) == DivergentPairs(results)
      invariant tick + Choose2(n - i) == 1 + Choose2(n) && forall t: nat :: 1 <= t < tick ==> !cancelled(t)
    {
      Choose2Step(n - i - 1);
      RowStep(results, i);
      for j := i + 1 to n
        invariant SoFar(verbose, results, d, pairs, (i, j))
        invariant d.divergentPairs + (n - j - Count(results[j..], results[i])) + DivergentPairs(results[i + 1..])
                  == DivergentPairs(results)
        invariant tick + (n - j) + Choose2(n - i - 1) == 1 + Choose2(n)
        invariant forall t: nat :: 1 <= t < tick ==> !cancelled(t)
      {
        Choose2Natural(n - i - 1);
        if cancelled(tick) {
          return None, Some(Cancelled);
        }
        tick := tick + 1;
        CountStep(results, j, results[i]);
        d, pairs := ComparePair(verbose, results, i, j, d, pairs);
      }
      assert results[n..] == [];
      NoneLeft();
      NextRowAll(verbose, results, d, pairs, i);
    }
    assert results[n..] == [] && results[0..] == results;
    NoneLeft();
    Choose2Natural(0);
    var score := Score(d.divergentPairs, n);
    r, err := Some(Report(n, d.agree, d.divergence, score, d.notes + LowNote(cfg, score))), None;
    Completed(cfg, results, d, pairs, r.value);
  }

  lemma RowStep(results: seq<ExecutionResult>, i: nat)
    requires i < |results|
    ensures DivergentPairs(results[i..])
            == |results| - i - 1 - Count(results[i + 1..], results[i]) + DivergentPairs(results[i + 1..])
  {
    assert results[i..][1..] == results[i + 1..];
  }

  lemma CountStep(results: seq<ExecutionResult>, j: nat, x: ExecutionResult)
    requires j < |results|
    ensures Count(results[j..], x) == (if results[j] == x then 1 else 0) + Count(results[j + 1..], x)
  {
    assert results[j..][1..] == results[j + 1..];
  }

  lemma NoneLeft()
    ensures DivergentPairs([]) == 0 && forall x :: Count([], x) == 0
  {
  }

  lemma NothingListed(verbose: bool, results: seq<ExecutionResult>, d: Draft)
    requires d == Draft(PerAxis(true, true, true),
                        PerAxis([], [], []), 0, [])
    ensures SoFar(verbose, results, d, [], (0, 1))
  {
  }

  lemma NextRowAll(verbose: bool, results: seq<ExecutionResult>, d: Draft, pairs: seq<Pair>, i: nat)
    requires i < |results| && SoFar(verbose, results, d, pairs, (i, |results|))
    ensures SoFar(verbose, results, d, pairs, (i + 1, i + 2))
  {
    forall axis: Axis
      ensures AxisSoFar(results, axis, d.agree.On(axis), d.divergence.On(axis), (i + 1, i + 2))
    {
    }
  }

  lemma Completed(cfg: Option<Config>, results: seq<ExecutionResult>, d: Draft, pairs: seq<Pair>, r: Report)
    requires SoFar(cfg != None && cfg.value.verbose, results, d, pairs, (|results|, |results| + 1))
    requires d.divergentPairs == DivergentPairs(results)
    requires r == Report(|results|, d.agree, d.divergence, Score(d.divergentPairs, |results|),
                         d.notes + LowNote(cfg, Score(d.divergentPairs, |results|)))
    ensures IsReport(cfg, results, r)
  {
    forall axis: Axis ensures Lists(results, Some(axis), PairsOf(r.divergence.On(axis))) {
    }
    assert NotesOf(cfg != None && cfg.value.verbose, pairs, d.notes);
  }

  lemma DivergesOnSome(results: seq<ExecutionResult>, pairs: seq<Pair>, i: nat, j: nat)
    requires i < j < |results| && ListsUpTo(results, None, pairs, (i, j))
    ensures if DiffersOn(ExitCode, results[i], results[j]) || DiffersOn(Stdout, results[i], results[j])
               || DiffersOn(Stderr, results[i], results[j])
            then results[i] != results[j] && ListsUpTo(results, None, pairs + [(i, j)], (i, j + 1))
            else results[i] == results[j] && ListsUpTo(results, None, pairs, (i, j + 1))
  {
  }

  // ----- The report read off the results, field by field -----

  /** The listed pairs of an axis are exactly the diverging ones. */
  lemma ListedOn(cfg: Option<Config>, results: seq<ExecutionResult>, r: Report, axis: Axis)
    requires IsReport(cfg, results, r)
    ensures forall e: DivergencePair :: e in r.divergence.On(axis) <==>
              Differs(results, Some(axis), (e.i, e.j)) && e == Entry(results, axis, (e.i, e.j))
    ensures r.agree.On(axis) <==> forall p :: !Differs(results, Some(axis), p)
  {
    var entries := r.divergence.On(axis);
    var pairs := PairsOf(entries);
    assert Lists(results, Some(axis), pairs) && ShowsValues(results, axis, entries);
    hide Differs, Entry, IsReport, InLexicographicOrder;
    forall p | Differs(results, Some(axis), p) ensures exists k :: 0 <= k < |entries| && pairs[k] == p {
      assert p in pairs;
    }
    forall e: DivergencePair | e in entries ensures (e.i, e.j) in pairs {
      var k :| 0 <= k < |entries| && entries[k] == e;
      assert pairs[k] == (e.i, e.j);
    }
    if entries != [] {
      assert pairs[0] in pairs;
    }
  }

  /** All exit codes agree exactly when they are equal; the pairs listed are exactly those whose
      codes differ, with the two codes. */
  lemma ExitCodesReported(cfg: Option<Config>, results: seq<ExecutionResult>, r: Report)
    requires IsReport(cfg, results, r)
    ensures r.agree.exitCode <==> forall i, j :: 0 <= i < j < |results| ==> results[i].exitCode == results[j].exitCode
    ensures forall e :: e in r.divergence.exitCode <==>
              && e.i < e.j < |results| && results[e.i].exitCode != results[e.j].exitCode
              && e.left == results[e.i].exitCode && e.right == results[e.j].exitCode
  {
    ListedOn(cfg, results, r, ExitCode);
    hide IsReport;
    if r.agree.exitCode {
      forall i, j | 0 <= i < j < |results| ensures results[i].exitCode == results[j].exitCode {
        assert !Differs(results, Some(ExitCode), (i, j));
      }
    }
  }

  /** The same for the outputs, shown by their lengths. */
  lemma OutputsReported(cfg: Option<Config>, results: seq<ExecutionResult>, r: Report)
    requires IsReport(cfg, results, r)
    ensures r.agree.stdout <==> forall i, j :: 0 <= i < j < |results| ==> results[i].output == results[j].output
    ensures forall e :: e in r.divergence.stdout <==>
              && e.i < e.j < |results| && results[e.i].output != results[e.j].output
              && e.left == |results[e.i].output| && e.right == |results[e.j].output|
  {
    ListedOn(cfg, results, r, Stdout);
    hide IsReport;
    if r.agree.stdout {
      forall i, j | 0 <= i < j < |results| ensures results[i].output == results[j].output {
        assert !Differs(results, Some(Stdout), (i, j));
      }
    }
  }

  /** The same for the error texts. */
  lemma ErrorTextsReported(cfg: Option<Config>, results: seq<ExecutionResult>, r: Report)
    requires IsReport(cfg, results, r)
    ensures r.agree.stderr <==> forall i, j :: 0 <= i < j < |results| ==> results[i].stderr == results[j].stderr
    ensures forall e :: e in r.divergence.stderr <==>
              && e.i < e.j < |results| && results[e.i].stderr != results[e.j].stderr
              && e.left == |results[e.i].stderr| && e.right == |results[e.j].stderr|
  {
    ListedOn(cfg, results, r, Stderr);
    hide IsReport;
    if r.agree.stderr {
      forall i, j | 0 <= i < j < |results| ensures results[i].stderr == results[j].stderr {
        assert !Differs(results, Some(Stderr), (i, j));
      }
    }
  }

  /** The score takes an equal share off 1 for each of the n(n-1)/2 pairs that diverges. */
  lemma ScoreReported(cfg: Option<Config>, results: seq<ExecutionResult>, r: Report)
    requires IsReport(cfg, results, r) && |results| >= 2
    ensures 2.0 * DivergentPairs(results) as real
            == (1.0 - r.consistencyScore) * (|results| * (|results| - 1)) as real
  {
    hide *;
    ScoreOfReport(cfg, results, r);
    ScoreShares(DivergentPairs(results), |results|);
  }

  lemma ScoreOfReport(cfg: Option<Config>, results: seq<ExecutionResult>, r: Report)
    requires IsReport(cfg, results, r)
    ensures r.consistencyScore == Score(DivergentPairs(results), |results|)
  {
  }

  lemma ScoreShares(d: int, n: nat)
    requires n >= 2
    ensures 2.0 * d as real == (1.0 - Score(d, n)) * (n * (n - 1)) as real
  {
    EvenProduct(n);
    var pairs := n * (n - 1) / 2;
    assert n * (n - 1) == 2 * pairs && pairs > 0;
    var share := d as real / pairs as real;
    assert share * pairs as real == d as real;
    assert Score(d, n) == 1.0 - share;
    assert (n * (n - 1)) as real == 2.0 * pairs as real;
    assert share * (2.0 * pairs as real) == 2.0 * (share * pairs as real);
  }

  /** The notes tell of every pair of different results, when asked for, and last of a score
      below a positive threshold. */
  lemma NotesReported(cfg: Option<Config>, results: seq<ExecutionResult>, r: Report)
    requires IsReport(cfg, results, r)
    ensures forall note :: note in r.notes <==>
              match note
              case Diverged(i, j) => cfg != None && cfg.value.verbose && i < j < |results| && results[i] != results[j]
              case LowConsistency(score, threshold) =>
                && cfg != None && 0.0 < cfg.value.threshold && r.consistencyScore < cfg.value.threshold
                && score == r.consistencyScore && threshold == cfg.value.threshold
  {
    var verbose := cfg != None && cfg.value.verbose;
    var pairs: seq<Pair>, notes :| && Lists(results, None, pairs) && |pairs| == DivergentPairs(results)
                        && NotesOf(verbose, pairs, notes) && r.notes == notes + LowNote(cfg, r.consistencyScore);
    hide IsReport, DivergentPairs, InLexicographicOrder;
    forall i: nat, j: nat | verbose && i < j < |results| && results[i] != results[j] ensures Diverged(i, j) in notes {
      assert Differs(results, None, (i, j));
      var k :| 0 <= k < |pairs| && pairs[k] == (i, j);
      assert notes[k] == Diverged(i, j);
    }
    forall k | 0 <= k < |notes|
      ensures var p := pairs[k];
              verbose && notes[k] == Diverged(p.0, p.1) && p.0 < p.1 < |results| && results[p.0] != results[p.1]
    {
      assert Differs(results, None, pairs[k]);
    }
  }
}
