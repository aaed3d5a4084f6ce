/** The shared counters of orchestrator/orchestrator.go, read and added to under any
    interleaving. */
module Counters {
  import opened Fractions

  /** Where a call is. Failed and Won have decided their outcome; the deferred decrement
      of the active count is still to come. */
  datatype Call =
    | Waiting
    | Rejected
    | Counted
    | Active
    | Failed
    | Won
    | Returned(ok: bool)

  /** One GetStatistics call: the total is loaded first, then the successes. */
  datatype Reader = Idle | GotTotal(total: int) | GotBoth(total: int, success: int)

  datatype State = State(total: int, active: int, success: int, calls: seq<Call>, reader: Reader)

  datatype Step =
    | Reject(i: nat)
    | CountTotal(i: nat)
    | CountActive(i: nat)
    | Fail(i: nat)
    | Succeed(i: nat)
    | Leave(i: nat)
    | LoadTotal
    | LoadSuccess

  function Initial(n: nat): State {
    State(0, 0, 0, seq(n, _ => Waiting), Idle)
  }

  predicate At(s: State, i: nat, c: Call) {
    i < |s.calls| && s.calls[i] == c
  }

  predicate Enabled(s: State, x: Step) {
    match x
    case Reject(i) => At(s, i, Waiting)
    case CountTotal(i) => At(s, i, Waiting)
    case CountActive(i) => At(s, i, Counted)
    case Fail(i) => At(s, i, Active)
    case Succeed(i) => At(s, i, Active)
    case Leave(i) => At(s, i, Failed) || At(s, i, Won)
    case LoadTotal => s.reader.Idle?
    case LoadSuccess => s.reader.GotTotal?
  }

  function Apply(s: State, x: Step): State
    requires Enabled(s, x)
  {
    match x
    case Reject(i) => s.(calls := s.calls[i := Rejected])
    case CountTotal(i) => s.(total := s.total + 1, calls := s.calls[i := Counted])
    case CountActive(i) => s.(active := s.active + 1, calls := s.calls[i := Active])
    case Fail(i) => s.(calls := s.calls[i := Failed])
    case Succeed(i) => s.(success := s.success + 1, calls := s.calls[i := Won])
    case Leave(i) => s.(active := s.active - 1, calls := s.calls[i := Returned(s.calls[i] == Won)])
    case LoadTotal => s.(reader := GotTotal(s.total))
    case LoadSuccess => s.(reader := GotBoth(s.reader.total, s.success))
  }

  /** The steps lead from s to t. */
  ghost predicate Runs(s: State, steps: seq<Step>, t: State)
    decreases |steps|
  {
    if steps == [] then t == s
    else Enabled(s, steps[0]) && Runs(Apply(s, steps[0]), steps[1..], t)
  }

  // ----- Counting calls -----

  function Tally(calls: seq<Call>, p: Call -> bool): (n: nat)
    ensures n <= |calls|
  {
    if calls == [] then 0 else Tally(calls[..|calls| - 1], p) + if p(calls[|calls| - 1]) then 1 else 0
  }

  lemma {:induction false} TallyUpdate(calls: seq<Call>, p: Call -> bool, i: nat, c: Call)
    requires i < |calls|
    ensures Tally(calls[i := c], p)
            == Tally(calls, p) - (if p(calls[i]) then 1 else 0) + if p(c) then 1 else 0
  {
    var n := |calls| - 1;
    if i < n {
      TallyUpdate(calls[..n], p, i, c);
      assert calls[i := c][..n] == calls[..n][i := c];
    } else {
      assert calls[i := c][..n] == calls[..n];
    }
  }

  lemma {:induction false} TallyNone(calls: seq<Call>, p: Call -> bool)
    requires forall c :: c in calls ==> !p(c)
    ensures Tally(calls, p) == 0
  {
    if calls != [] {
      TallyNone(calls[..|calls| - 1], p);
    }
  }

  /** Counting by two properties that no call has at once. */
  lemma {:induction false} TallyDisjoint(calls: seq<Call>, p: Call -> bool, q: Call -> bool, r: Call -> bool)
    requires forall c :: r(c) == (p(c) || q(c)) && !(p(c) && q(c))
    ensures Tally(calls, r) == Tally(calls, p) + Tally(calls, q)
  {
    if calls != [] {
      TallyDisjoint(calls[..|calls| - 1], p, q, r);
    }
  }

  lemma {:induction false} TallyAll(calls: seq<Call>, p: Call -> bool)
    ensures Tally(calls, p) == |calls| <==> forall i :: 0 <= i < |calls| ==> p(calls[i])
  {
    if calls != [] {
      var n := |calls| - 1;
      TallyAll(calls[..n], p);
      assert forall i :: 0 <= i < n ==> calls[..n][i] == calls[i];
    }
  }

  predicate IsStarted(c: Call) { !c.Waiting? && !c.Rejected? }
  predicate IsActive(c: Call) { c.Active? || c.Failed? || c.Won? }
  predicate IsSuccess(c: Call) { c == Won || c == Returned(true) }
  predicate IsLost(c: Call) { c == Failed || c == Returned(false) }
  predicate IsWaiting(c: Call) { c.Waiting? }
  predicate ReturnedOk(c: Call) { c == Returned(true) }
  predicate HasReturned(c: Call) { c.Returned? }
  predicate IsRejected(c: Call) { c.Rejected? }
  predicate NotStarted(c: Call) { IsWaiting(c) || c.Rejected? }
  predicate IsSettled(c: Call) { IsSuccess(c) || IsDead(c) }
  predicate IsAny(c: Call) { true }
  predicate IsDead(c: Call) { c.Rejected? || IsLost(c) }

  function Started(s: State): nat { Tally(s.calls, IsStarted) }
  function InFlight(s: State): nat { Tally(s.calls, IsActive) }
  function Successes(s: State): nat { Tally(s.calls, IsSuccess) }
  function Lost(s: State): nat { Tally(s.calls, IsLost) }
  function ToStart(s: State): nat { Tally(s.calls, IsWaiting) }
  function Dead(s: State): nat { Tally(s.calls, IsDead) }

  /** The counters are conserved: each is the number of calls in the stages it stands for. */
  ghost predicate Conserved(s: State) {
    s.total == Started(s) && s.active == InFlight(s) && s.success == Successes(s)
  }

  lemma InitialConserved(n: nat)
    ensures Conserved(Initial(n))
  {
    TallyNone(Initial(n).calls, IsStarted);
    TallyNone(Initial(n).calls, IsActive);
    TallyNone(Initial(n).calls, IsSuccess);
  }

  /** One step keeps the counters conserved, and no call comes back from the dead. */
  lemma StepKeeps(s: State, x: Step)
    requires Enabled(s, x) && Conserved(s)
    ensures Conserved(Apply(s, x))
    ensures Dead(s) <= Dead(Apply(s, x)) && |Apply(s, x).calls| == |s.calls|
  {
    hide Tally;
    if !x.LoadTotal? && !x.LoadSuccess? {
      var c := Apply(s, x).calls[x.i];
      TallyUpdate(s.calls, IsStarted, x.i, c);
      TallyUpdate(s.calls, IsActive, x.i, c);
      TallyUpdate(s.calls, IsSuccess, x.i, c);
      TallyUpdate(s.calls, IsDead, x.i, c);
    }
  }

  lemma {:induction false} RunKeeps(s: State, steps: seq<Step>, t: State)
    requires Runs(s, steps, t) && Conserved(s)
    ensures Conserved(t) && Dead(s) <= Dead(t) && |t.calls| == |s.calls|
    decreases |steps|
  {
    hide Tally, Conserved, Apply;
    if steps != [] {
      StepKeeps(s, steps[0]);
      RunKeeps(Apply(s, steps[0]), steps[1..], t);
    }
  }

  lemma {:induction false} TallyImplies(calls: seq<Call>, p: Call -> bool, q: Call -> bool)
    requires forall c :: p(c) ==> q(c)
    ensures Tally(calls, p) <= Tally(calls, q)
  {
    if calls != [] {
      TallyImplies(calls[..|calls| - 1], p, q);
    }
  }

  /** In every reachable state successes and active debates are bounded by the total, and
      once every call has returned nothing is active and the counters are the outcomes. */
  lemma CountersBounded(n: nat, steps: seq<Step>, t: State)
    requires Runs(Initial(n), steps, t)
    ensures 0 <= t.success <= t.total <= n
    ensures 0 <= t.active <= t.total
    ensures (forall c :: c in t.calls ==> c.Returned? || c.Rejected?) ==>
              && t.active == 0 && t.success == Tally(t.calls, ReturnedOk)
              && t.total == Tally(t.calls, HasReturned)
  {
    InitialConserved(n);
    RunKeeps(Initial(n), steps, t);
    TallyImplies(t.calls, IsSuccess, IsStarted);
    TallyImplies(t.calls, IsActive, IsStarted);
    if forall c :: c in t.calls ==> c.Returned? || c.Rejected? {
      TallyNone(t.calls, IsActive);
      TallySame(t.calls, IsSuccess, ReturnedOk);
      TallySame(t.calls, IsStarted, HasReturned);
    }
  }

  lemma {:induction false} TallySame(calls: seq<Call>, p: Call -> bool, q: Call -> bool)
    requires forall c :: c in calls ==> p(c) == q(c)
    ensures Tally(calls, p) == Tally(calls, q)
  {
    if calls != [] {
      TallySame(calls[..|calls| - 1], p, q);
    }
  }

  // ----- The success rate -----

  lemma RateAboveOne(total: int, success: int)
    ensures Ratio(success, total) > 1.0 <==> 0 < total < success
    ensures success >= 0 ==> Ratio(success, total) >= 0.0
  {
    if total > 0 {
      RatioBounds(success, total);
    }
  }

  lemma {:induction false} ReaderKeeps(s: State, steps: seq<Step>, t: State, total: int, bound: int)
    requires Runs(s, steps, t) && Conserved(s) && |s.calls| - Dead(s) <= bound
    requires s.reader == GotTotal(total) || (s.reader.GotBoth? && s.reader.total == total && s.reader.success <= bound)
    ensures t.reader == GotTotal(total) || (t.reader.GotBoth? && t.reader.total == total && t.reader.success <= bound)
    decreases |steps|
  {
    hide Tally;
    if steps != [] {
      StepKeeps(s, steps[0]);
      AliveBoundsSuccess(s);
      ReaderKeeps(Apply(s, steps[0]), steps[1..], t, total, bound);
    }
  }

  lemma AliveBoundsSuccess(s: State)
    requires Conserved(s)
    ensures s.success <= |s.calls| - Dead(s)
  {
    TallyDisjoint(s.calls, IsSuccess, IsDead, IsSettled);
  }

  /** Calls that can still succeed: everything but the dead, counted from the total. */
  lemma AliveCount(s: State)
    requires Conserved(s)
    ensures |s.calls| - Dead(s) == s.total + ToStart(s) - Lost(s)
  {
    hide Tally;
    TallyDisjoint(s.calls, IsRejected, IsLost, IsDead);
    TallyDisjoint(s.calls, IsWaiting, IsRejected, NotStarted);
    TallyDisjoint(s.calls, NotStarted, IsStarted, IsAny);
    TallyAll(s.calls, IsAny);
  }

  lemma {:induction false} AddStep(s: State, steps: seq<Step>, t: State, x: Step)
    requires Runs(s, steps, t) && Enabled(t, x)
    ensures Runs(s, steps + [x], Apply(t, x))
    decreases |steps|
  {
    if steps == [] {
      assert Runs(t, [x], Apply(t, x)) by {
        assert [x][1..] == [];
      }
      assert steps + [x] == [x];
    } else {
      AddStep(Apply(s, steps[0]), steps[1..], t, x);
      assert (steps + [x])[1..] == steps[1..] + [x];
    }
  }

  function Remaining(c: Call): nat {
    match c
    case Waiting => 3
    case Counted => 2
    case Active => 1
    case _ => 0
  }

  function Work(calls: seq<Call>): nat {
    if calls == [] then 0 else Work(calls[..|calls| - 1]) + Remaining(calls[|calls| - 1])
  }

  lemma {:induction false} WorkUpdate(calls: seq<Call>, i: nat, c: Call)
    requires i < |calls|
    ensures Work(calls[i := c]) == Work(calls) - Remaining(calls[i]) + Remaining(c)
  {
    var n := |calls| - 1;
    if i < n {
      WorkUpdate(calls[..n], i, c);
      assert calls[i := c][..n] == calls[..n][i := c];
    } else {
      assert calls[i := c][..n] == calls[..n];
    }
  }

  function Forward(s: State, i: nat): Step
    requires i < |s.calls|
  {
    match s.calls[i]
    case Waiting => CountTotal(i)
    case Counted => CountActive(i)
    case _ => Succeed(i)
  }

  lemma ForwardWorks(s: State, i: nat)
    requires i < |s.calls| && Remaining(s.calls[i]) > 0
    ensures Enabled(s, Forward(s, i))
    ensures var t := Apply(s, Forward(s, i));
            Work(t.calls) < Work(s.calls) && Dead(t) == Dead(s) && t.reader == s.reader
  {
    hide Tally, Work;
    var t := Apply(s, Forward(s, i));
    WorkUpdate(s.calls, i, t.calls[i]);
    TallyUpdate(s.calls, IsDead, i, t.calls[i]);
  }

  /** From any state all calls that are not dead can go on to succeed. */
  lemma {:induction false} AllCanSucceed(s: State) returns (steps: seq<Step>, t: State)
    ensures Runs(s, steps, t) && t.reader == s.reader && Dead(t) == Dead(s)
    ensures forall i :: 0 <= i < |t.calls| ==> Remaining(t.calls[i]) == 0
    decreases Work(s.calls)
  {
    hide Tally, Work, Apply;
    if i: nat :| i < |s.calls| && Remaining(s.calls[i]) > 0 {
      ForwardWorks(s, i);
      var x := Forward(s, i);
      var rest;
      rest, t := AllCanSucceed(Apply(s, x));
      steps := [x] + rest;
      assert steps[1..] == rest;
    } else {
      steps, t := [], s;
    }
  }

  /** GetStatistics loads the total and then the successes. When s is the state right after
      the first load, the rate it goes on to report can exceed 1 exactly when more calls are
      yet to be counted than counted calls have failed. */
  lemma RateCanExceedOneIff(s: State)
    requires Conserved(s) && s.reader == GotTotal(s.total)
    ensures (exists steps, t, success ::
               Runs(s, steps, t) && t.reader == GotBoth(s.total, success) && Ratio(success, s.total) > 1.0)
            <==> s.total > 0 && ToStart(s) > Lost(s)
  {
    hide Tally, Runs, Ratio;
    AliveCount(s);
    if steps, t, success :|
      Runs(s, steps, t) && t.reader == GotBoth(s.total, success) && Ratio(success, s.total) > 1.0
    {
      ReaderKeeps(s, steps, t, s.total, |s.calls| - Dead(s));
      RateAboveOne(s.total, success);
    }
    if s.total > 0 && ToStart(s) > Lost(s) {
      var steps, t := AllCanSucceed(s);
      RunKeeps(s, steps, t);
      SuccessesWhenDone(t);
      AddStep(s, steps, t, LoadSuccess);
      RateAboveOne(s.total, t.success);
      assert Runs(s, steps + [LoadSuccess], Apply(t, LoadSuccess));
    }
  }

  /** In particular for every GetStatistics call that some interleaving of n debates reaches. */
  lemma ReportedRateCanExceedOneIff(n: nat, before: seq<Step>, s: State)
    requires Runs(Initial(n), before, s) && Enabled(s, LoadTotal)
    ensures var loaded := Apply(s, LoadTotal);
            (exists steps, t, success ::
               Runs(loaded, steps, t) && t.reader == GotBoth(s.total, success) && Ratio(success, s.total) > 1.0)
            <==> s.total > 0 && ToStart(s) > Lost(s)
  {
    hide Tally, Runs, Ratio, Conserved;
    InitialConserved(n);
    RunKeeps(Initial(n), before, s);
    StepKeeps(s, LoadTotal);
    RateCanExceedOneIff(Apply(s, LoadTotal));
  }

  /** Two debates of which one is counted when the total is loaded: the rate can exceed 1. */
  lemma RateExceedsOne()
    ensures var s := Apply(Initial(2), CountTotal(0));
            Enabled(s, LoadTotal) && exists steps, t, success ::
              Runs(Apply(s, LoadTotal), steps, t) && t.reader == GotBoth(1, success) && Ratio(success, 1) > 1.0
  {
    var s := Apply(Initial(2), CountTotal(0));
    assert Runs(Initial(2), [CountTotal(0)], s) by {
      assert [CountTotal(0)][1..] == [];
    }
    assert s.calls == [Counted, Waiting] && s.calls[..1] == [Counted] && s.calls[..1][..0] == [];
    assert ToStart(s) == 1 && Lost(s) == 0 && s.total == 1;
    ReportedRateCanExceedOneIff(2, [CountTotal(0)], s);
  }

  lemma SuccessesWhenDone(t: State)
    requires Conserved(t) && forall i :: 0 <= i < |t.calls| ==> Remaining(t.calls[i]) == 0
    ensures t.success == |t.calls| - Dead(t)
  {
    hide Tally;
    TallyDisjoint(t.calls, IsSuccess, IsDead, IsSettled);
    TallyAll(t.calls, IsSettled);
  }

  /** When no debate is counted between the two loads, the rate is at most 1. */
  lemma QuietRate(s: State, steps: seq<Step>, t: State)
    requires Conserved(s) && s.reader == GotTotal(s.total) && Runs(s, steps, t)
    requires t.total == s.total && t.reader.GotTotal?
    ensures Enabled(t, LoadSuccess)
    ensures var r := Apply(t, LoadSuccess).reader; 0.0 <= Ratio(r.success, r.total) <= 1.0
  {
    hide Tally, Ratio, Runs;
    RunKeeps(s, steps, t);
    ReaderKeeps(s, steps, t, s.total, |s.calls| - Dead(s));
    TallyImplies(t.calls, IsSuccess, IsStarted);
    RateAboveOne(s.total, t.success);
  }
}
