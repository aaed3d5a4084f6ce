/** GenerateBatch (testing/testing.go) as a step-by-step system: a dispatcher, one
    goroutine per slot, a semaphore of four and a wait group. */
module Batch {
  import opened Wrappers

  const BATCH_CONCURRENCY := 4

  /** What one Generate call returns. */
  datatype Slot = Good(testCase: string) | Bad(error: string)

  datatype Error = Cancelled | PartialBatch(succeeded: nat, count: nat, first: string)

  datatype Result = Result(cases: seq<string>, err: Option<Error>)

  // ----- Collecting the slots -----

  ghost function Successes(slots: seq<Slot>): seq<string> {
    if slots == [] then [] else
      Successes(slots[..|slots| - 1])
      + match slots[|slots| - 1] case Good(tc) => [tc] case Bad(_) => []
  }

  /** The error of the lowest failing slot. */
  ghost predicate IsFirstError(slots: seq<Slot>, e: Option<string>) {
    match e
    case None => forall j :: 0 <= j < |slots| ==> slots[j].Good?
    case Some(msg) =>
      exists i :: 0 <= i < |slots| && slots[i] == Bad(msg) && forall j :: 0 <= j < i ==> slots[j].Good?
  }

  /** What a batch whose slots all ran returns. */
  ghost predicate Collected(slots: seq<Slot>, r: Result) {
    && r.cases == Successes(slots)
    && match r.err
       case None => IsFirstError(slots, None)
       case Some(Cancelled) => false
       case Some(PartialBatch(succeeded, count, first)) =>
         succeeded == |r.cases| && count == |slots| && IsFirstError(slots, Some(first))
  }

  lemma FirstErrorStep(slots: seq<Slot>, x: Slot, e: Option<string>)
    requires IsFirstError(slots, e)
    ensures IsFirstError(slots + [x], if e == None && x.Bad? then Some(x.error) else e)
  {
    var more := slots + [x];
    if e != None {
      var i :| 0 <= i < |slots| && slots[i] == Bad(e.value) && forall j :: 0 <= j < i ==> slots[j].Good?;
      assert more[i] == Bad(e.value) && forall j :: 0 <= j < i ==> more[j].Good?;
    } else if x.Bad? {
      assert more[|slots|] == x && forall j :: 0 <= j < |slots| ==> more[j].Good?;
    }
  }

  method Collect(slots: seq<Slot>) returns (r: Result)
    ensures Collected(slots, r)
  {
    var successes: seq<string>, firstErr: Option<string> := [], None;
    for i := 0 to |slots|
      invariant successes == Successes(slots[..i]) && IsFirstError(slots[..i], firstErr)
    {
      assert slots[..i + 1][..i] == slots[..i];
      FirstErrorStep(slots[..i], slots[i], firstErr);
      assert slots[..i + 1] == slots[..i] + [slots[i]];
      match slots[i] {
        case Bad(e) =>
          if firstErr == None {
            firstErr := Some(e);
          }
        case Good(tc) =>
          successes := successes + [tc];
      }
    }
    assert slots[..|slots|] == slots;
    match firstErr {
      case None => r := Result(successes, None);
      case Some(e) => r := Result(successes, Some(PartialBatch(|successes|, |slots|, e)));
    }
  }

  /** The error is nil exactly when every slot succeeded, and then every slot is returned. */
  lemma {:induction false} SuccessCount(slots: seq<Slot>)
    ensures |Successes(slots)| <= |slots|
    ensures |Successes(slots)| == |slots| <==> forall j :: 0 <= j < |slots| ==> slots[j].Good?
  {
    if slots != [] {
      SuccessCount(slots[..|slots| - 1]);
    }
  }

  /** Slot i's place among the successes is the number of successes before it: request order. */
  lemma {:induction false} SuccessesInRequestOrder(slots: seq<Slot>, i: nat)
    requires i < |slots| && slots[i].Good?
    ensures |Successes(slots[..i])| < |Successes(slots)|
    ensures Successes(slots)[|Successes(slots[..i])|] == slots[i].testCase
  {
    if i < |slots| - 1 {
      assert slots[..|slots| - 1][..i] == slots[..i];
      SuccessesInRequestOrder(slots[..|slots| - 1], i);
    }
  }

  // ----- The concurrent system -----

  /** Where a goroutine is: it exists once launched; Holding means Generate has returned
      and the slot is not written yet. */
  datatype Stage = Unlaunched | Generating | Holding(outcome: Slot) | Written | Released | Finished

  datatype Dispatcher = Checking | Acquiring | Launching | Waiting | Draining | Done(result: Result)

  datatype State = State(
    dispatcher: Dispatcher,
    next: nat,
    waitGroup: int,
    semaphore: int,
    stages: seq<Stage>,
    slots: seq<Option<Slot>>,
    writes: seq<nat>,
    cancelled: bool)

  /** What the environment fixes: how many slots, and what each Generate call returns. */
  datatype Job = Job(count: nat, outcome: nat -> Slot)

  datatype Step =
    | Cancel
    | Check
    | Acquire
    | Launch
    | Generate(i: nat)
    | Write(i: nat)
    | Release(i: nat)
    | Finish(i: nat)
    | Resume

  ghost function Init(job: Job): State {
    State(Checking, 0, 0, 0, seq(job.count, _ => Unlaunched), seq(job.count, _ => None), seq(job.count, _ => 0), false)
  }

  ghost function Outcomes(job: Job): seq<Slot> {
    seq(job.count, i requires 0 <= i => job.outcome(i))
  }

  ghost predicate At(s: State, i: nat, stage: Stage) {
    i < |s.stages| && s.stages[i] == stage
  }

  /** One atomic step of the dispatcher, of goroutine i, or of the caller's context. */
  ghost predicate Next(job: Job, s: State, step: Step, t: State)
    requires |s.stages| == |s.slots| == |s.writes| == job.count
  {
    match step
    case Cancel => !s.cancelled && t == s.(cancelled := true)
    case Check =>
      && s.dispatcher == Checking
      && t == (if s.next == job.count then s.(dispatcher := Waiting)
               else if s.cancelled then s.(dispatcher := Draining)
               else s.(dispatcher := Acquiring, waitGroup := s.waitGroup + 1))
    case Acquire =>
      && s.dispatcher == Acquiring && s.semaphore < BATCH_CONCURRENCY
      && t == s.(dispatcher := Launching, semaphore := s.semaphore + 1)
    case Launch =>
      && s.dispatcher == Launching && s.next < job.count
      && t == s.(dispatcher := Checking, next := s.next + 1, stages := s.stages[s.next := Generating])
    case Generate(i) =>
      At(s, i, Generating) && t == s.(stages := s.stages[i := Holding(job.outcome(i))])
    case Write(i) =>
      && i < job.count && s.stages[i].Holding?
      && t == s.(stages := s.stages[i := Written], slots := s.slots[i := Some(s.stages[i].outcome)],
                 writes := s.writes[i := s.writes[i] + 1])
    case Release(i) =>
      At(s, i, Written) && t == s.(stages := s.stages[i := Released], semaphore := s.semaphore - 1)
    case Finish(i) =>
      At(s, i, Released) && t == s.(stages := s.stages[i := Finished], waitGroup := s.waitGroup - 1)
    case Resume =>
      && s.waitGroup == 0
      && match s.dispatcher
         case Waiting =>
           exists r :: Collected(Read(s.slots), r) && t == s.(dispatcher := Done(r))
         case Draining => t == s.(dispatcher := Done(Result([], Some(Cancelled))))
         case _ => false
  }

  /** The slots as the collecting loop reads them; an unwritten slot is Go's zero value,
      which reads as a nil case with no error. */
  ghost function Read(slots: seq<Option<Slot>>): seq<Slot> {
    seq(|slots|, i requires 0 <= i < |slots| => match slots[i] case Some(o) => o case None => Good(""))
  }

  // ----- Counting goroutines -----

  ghost function Weight(stages: seq<Stage>, w: Stage -> int): int {
    if stages == [] then 0 else Weight(stages[..|stages| - 1], w) + w(stages[|stages| - 1])
  }

  lemma {:induction false} WeightUpdate(stages: seq<Stage>, i: nat, x: Stage, w: Stage -> int)
    requires i < |stages|
    ensures Weight(stages[i := x], w) == Weight(stages, w) - w(stages[i]) + w(x)
  {
    var last := |stages| - 1;
    if i == last {
      assert stages[i := x][..last] == stages[..last];
    } else {
      assert stages[i := x][..last] == stages[..last][i := x];
      WeightUpdate(stages[..last], i, x, w);
    }
  }

  lemma {:induction false} WeightBounds(stages: seq<Stage>, v: Stage -> int, w: Stage -> int)
    requires forall x :: 0 <= v(x) <= w(x)
    ensures 0 <= Weight(stages, v) <= Weight(stages, w)
    ensures Weight(stages, w) == 0 ==> forall i :: 0 <= i < |stages| ==> w(stages[i]) == 0
  {
    if stages != [] {
      WeightBounds(stages[..|stages| - 1], v, w);
    }
  }

  lemma {:induction false} WeightConstant(stages: seq<Stage>, x: Stage, w: Stage -> int)
    requires forall i :: 0 <= i < |stages| ==> stages[i] == x
    ensures Weight(stages, w) == |stages| * w(x)
  {
    if stages != [] {
      WeightConstant(stages[..|stages| - 1], x, w);
    }
  }

  /** Holds a semaphore token. */
  ghost function Token(x: Stage): int {
    if x.Generating? || x.Holding? || x.Written? then 1 else 0
  }

  /** Counted by the wait group. */
  ghost function Pending(x: Stage): int {
    if x.Unlaunched? || x.Finished? then 0 else 1
  }

  /** Inside its Generate call. */
  ghost function InFlight(x: Stage): int {
    if x.Generating? then 1 else 0
  }

  /** Steps left for the goroutine, its launch included. */
  ghost function StepsLeft(x: Stage): int {
    match x
    case Unlaunched => 7
    case Generating => 4
    case Holding(_) => 3
    case Written => 2
    case Released => 1
    case Finished => 0
  }

  // ----- What every reachable state keeps -----

  ghost predicate SlotOk(job: Job, s: State, i: nat)
    requires i < |s.stages| && |s.stages| == |s.slots| == |s.writes|
  {
    && (s.stages[i].Unlaunched? <==> i >= s.next)
    && (s.stages[i].Holding? ==> s.stages[i].outcome == job.outcome(i))
    && (if s.stages[i].Written? || s.stages[i].Released? || s.stages[i].Finished?
        then s.slots[i] == Some(job.outcome(i)) && s.writes[i] == 1
        else s.slots[i] == None && s.writes[i] == 0)
  }

  ghost predicate DispatcherOk(job: Job, s: State) {
    match s.dispatcher
    case Checking => true
    case Acquiring => s.next < job.count
    case Launching => s.next < job.count
    case Waiting => s.next == job.count
    case Draining => s.cancelled && s.next < job.count
    case Done(r) =>
      && s.waitGroup == 0
      && (if r.err == Some(Cancelled) then s.cancelled && s.next < job.count && r.cases == []
          else s.next == job.count && Collected(Outcomes(job), r))
  }

  ghost predicate Inv(job: Job, s: State) {
    && |s.stages| == |s.slots| == |s.writes| == job.count && s.next <= job.count
    && (forall i :: 0 <= i < job.count ==> SlotOk(job, s, i))
    && s.semaphore == Weight(s.stages, Token) + (if s.dispatcher == Launching then 1 else 0)
    && s.semaphore <= BATCH_CONCURRENCY
    && s.waitGroup == Weight(s.stages, Pending)
                      + (if s.dispatcher == Acquiring || s.dispatcher == Launching then 1 else 0)
    && DispatcherOk(job, s)
  }

  lemma InitKept(job: Job)
    ensures Inv(job, Init(job))
  {
    WeightConstant(Init(job).stages, Unlaunched, Token);
    WeightConstant(Init(job).stages, Unlaunched, Pending);
  }

  /** Once nobody is pending, every launched goroutine has written its slot. */
  lemma QuietSlots(job: Job, s: State)
    requires Inv(job, s) && s.waitGroup == 0 && s.dispatcher == Waiting
    ensures Read(s.slots) == Outcomes(job)
    ensures forall i :: 0 <= i < job.count ==> s.stages[i] == Finished
  {
    WeightBounds(s.stages, Pending, Pending);
    forall i | 0 <= i < job.count ensures s.stages[i] == Finished && s.slots[i] == Some(job.outcome(i)) {
      assert SlotOk(job, s, i) && Pending(s.stages[i]) == 0;
    }
  }

  lemma StillPending(job: Job, s: State, i: nat)
    requires Inv(job, s) && At(s, i, Released)
    ensures s.waitGroup > 0
  {
    hide DispatcherOk, SlotOk;
    WeightUpdate(s.stages, i, Finished, Pending);
    WeightBounds(s.stages[i := Finished], Pending, Pending);
  }

  /** The goroutine a step concerns; 0 when it concerns none. */
  ghost function Concerned(s: State, step: Step): nat {
    match step case Launch => s.next case Generate(i) => i case Write(i) => i
    case Release(i) => i case Finish(i) => i case _ => 0
  }

  /** A step changes the stage of at most the goroutine it concerns. */
  lemma StageChange(job: Job, s: State, step: Step, t: State, w: Stage -> int)
    requires Inv(job, s) && Next(job, s, step, t)
    ensures |t.stages| == job.count
    ensures t.stages == s.stages
            || (Concerned(s, step) < job.count
                && t.stages == s.stages[Concerned(s, step) := t.stages[Concerned(s, step)]]
                && Weight(t.stages, w)
                   == Weight(s.stages, w) - w(s.stages[Concerned(s, step)]) + w(t.stages[Concerned(s, step)]))
  {
    hide DispatcherOk;
    var i := Concerned(s, step);
    if step.Launch? || step.Generate? || step.Write? || step.Release? || step.Finish? {
      assert t.stages == s.stages[i := t.stages[i]];
      WeightUpdate(s.stages, i, t.stages[i], w);
    }
  }

  lemma SlotsKept(job: Job, s: State, step: Step, t: State)
    requires Inv(job, s) && Next(job, s, step, t)
    ensures |t.stages| == |t.slots| == |t.writes| == job.count && t.next <= job.count
    ensures forall i :: 0 <= i < job.count ==> SlotOk(job, t, i)
  {
    hide Weight, DispatcherOk, Collected;
    forall k | 0 <= k < job.count ensures SlotOk(job, t, k) {
      assert SlotOk(job, s, k);
    }
  }

  lemma CountsKept(job: Job, s: State, step: Step, t: State)
    requires Inv(job, s) && Next(job, s, step, t)
    ensures t.semaphore == Weight(t.stages, Token) + (if t.dispatcher == Launching then 1 else 0)
    ensures t.semaphore <= BATCH_CONCURRENCY
    ensures t.waitGroup == Weight(t.stages, Pending)
                           + (if t.dispatcher == Acquiring || t.dispatcher == Launching then 1 else 0)
  {
    hide Weight, Collected;
    StageChange(job, s, step, t, Token);
    StageChange(job, s, step, t, Pending);
    if Concerned(s, step) < job.count {
      assert SlotOk(job, s, Concerned(s, step));
    }
  }

  lemma DispatcherKept(job: Job, s: State, step: Step, t: State)
    requires Inv(job, s) && Next(job, s, step, t)
    ensures DispatcherOk(job, t)
  {
    hide Weight, SlotOk;
    if step == Resume && s.dispatcher == Waiting {
      QuietSlots(job, s);
    }
    if step.Finish? {
      StillPending(job, s, step.i);
    }
  }

  lemma StepKept(job: Job, s: State, step: Step, t: State)
    requires Inv(job, s) && Next(job, s, step, t)
    ensures Inv(job, t)
  {
    hide Next, SlotOk, DispatcherOk;
    SlotsKept(job, s, step, t);
    CountsKept(job, s, step, t);
    DispatcherKept(job, s, step, t);
  }

  // ----- Runs -----

  /** A run: states joined by steps, starting where GenerateBatch starts dispatching. */
  ghost predicate IsRun(job: Job, states: seq<State>, steps: seq<Step>) {
    && |states| == |steps| + 1 && states[0] == Init(job)
    && forall k :: 0 <= k < |steps| ==>
         && |states[k].stages| == |states[k].slots| == |states[k].writes| == job.count
         && Next(job, states[k], steps[k], states[k + 1])
  }

  lemma {:induction false} RunKept(job: Job, states: seq<State>, steps: seq<Step>)
    requires IsRun(job, states, steps)
    ensures forall k :: 0 <= k < |states| ==> Inv(job, states[k])
  {
    if steps == [] {
      InitKept(job);
    } else {
      var last := |steps| - 1;
      RunKept(job, states[..last + 1], steps[..last]);
      assert states[..last + 1][last] == states[last];
      StepKept(job, states[last], steps[last], states[last + 1]);
      forall k | 0 <= k < |states| ensures Inv(job, states[k]) {
        if k <= last {
          assert states[..last + 1][k] == states[k];
        }
      }
    }
  }

  /** Safety of every interleaving: at most four Generate calls are in flight, a slot is
      written at most once, and only with its own outcome. */
  lemma BoundedAndWriteOnce(job: Job, states: seq<State>, steps: seq<Step>, k: nat)
    requires IsRun(job, states, steps) && k < |states|
    ensures Weight(states[k].stages, InFlight) <= 4
    ensures |states[k].slots| == |states[k].writes| == job.count
    ensures forall i :: 0 <= i < job.count ==>
              states[k].writes[i] <= 1 && (states[k].slots[i] == None || states[k].slots[i] == Some(job.outcome(i)))
  {
    RunKept(job, states, steps);
    WeightBounds(states[k].stages, InFlight, Token);
    forall i | 0 <= i < job.count
      ensures states[k].writes[i] <= 1 && (states[k].slots[i] == None || states[k].slots[i] == Some(job.outcome(i)))
    {
      assert SlotOk(job, states[k], i);
    }
  }

  /** A dispatcher waiting for a token gets one exactly while fewer than four are held. */
  lemma BlocksAtFour(job: Job, states: seq<State>, steps: seq<Step>, k: nat)
    requires IsRun(job, states, steps) && k < |states| && states[k].dispatcher == Acquiring
    ensures |states[k].stages| == |states[k].slots| == |states[k].writes| == job.count
    ensures (exists t :: Next(job, states[k], Acquire, t)) <==> Weight(states[k].stages, Token) < 4
  {
    RunKept(job, states, steps);
    var s := states[k];
    assert Inv(job, s);
    hide Weight;
    assert s.semaphore < 4 ==> Next(job, s, Acquire, s.(dispatcher := Launching, semaphore := s.semaphore + 1));
  }

  /** What an interleaving returns: unless the dispatcher saw the cancellation with slots
      left to launch, the result is what the slots' own outcomes collect to. No goroutine
      outlives the call. */
  lemma ResultDependsOnOutcomes(job: Job, states: seq<State>, steps: seq<Step>, k: nat)
    requires IsRun(job, states, steps) && k < |states| && states[k].dispatcher.Done?
    ensures var r := states[k].dispatcher.result;
            if r.err == Some(Cancelled) then states[k].cancelled && states[k].next < job.count && r.cases == []
            else Collected(Outcomes(job), r)
    ensures forall i :: 0 <= i < |states[k].stages| ==> states[k].stages[i].Unlaunched? || states[k].stages[i].Finished?
  {
    RunKept(job, states, steps);
    WeightBounds(states[k].stages, Pending, Pending);
  }

  /** Two interleavings of the same job that both finish uncancelled return the same. */
  lemma InterleavingDoesNotMatter(job: Job, states: seq<State>, steps: seq<Step>, j: nat,
                                  states': seq<State>, steps': seq<Step>, k: nat)
    requires IsRun(job, states, steps) && j < |states| && states[j].dispatcher.Done?
    requires IsRun(job, states', steps') && k < |states'| && states'[k].dispatcher.Done?
    requires states[j].dispatcher.result.err != Some(Cancelled)
    requires states'[k].dispatcher.result.err != Some(Cancelled)
    ensures states[j].dispatcher.result == states'[k].dispatcher.result
  {
    ResultDependsOnOutcomes(job, states, steps, j);
    ResultDependsOnOutcomes(job, states', steps', k);
  }

  /** Some step other than a cancellation can be taken. */
  ghost predicate CanStep(job: Job, s: State)
    requires |s.stages| == |s.slots| == |s.writes| == job.count
  {
    exists step, t :: step != Cancel && Next(job, s, step, t)
  }

  lemma GoroutineCanStep(job: Job, s: State, i: nat)
    requires Inv(job, s) && i < job.count && !s.stages[i].Unlaunched? && !s.stages[i].Finished?
    ensures CanStep(job, s)
  {
    match s.stages[i]
    case Generating => assert Next(job, s, Generate(i), s.(stages := s.stages[i := Holding(job.outcome(i))]));
    case Holding(o) =>
      assert Next(job, s, Write(i), s.(stages := s.stages[i := Written], slots := s.slots[i := Some(o)],
                                       writes := s.writes[i := s.writes[i] + 1]));
    case Written =>
      assert Next(job, s, Release(i), s.(stages := s.stages[i := Released], semaphore := s.semaphore - 1));
    case Released =>
      assert Next(job, s, Finish(i), s.(stages := s.stages[i := Finished], waitGroup := s.waitGroup - 1));
  }

  lemma {:induction false} SomeoneWeighs(stages: seq<Stage>, w: Stage -> int) returns (i: nat)
    requires Weight(stages, w) > 0
    ensures i < |stages| && w(stages[i]) > 0
  {
    var last := |stages| - 1;
    if w(stages[last]) > 0 {
      i := last;
    } else {
      i := SomeoneWeighs(stages[..last], w);
    }
  }

  lemma {:induction false} FirstErrorExists(slots: seq<Slot>)
    ensures exists e :: IsFirstError(slots, e)
  {
    if forall j :: 0 <= j < |slots| ==> slots[j].Good? {
      assert IsFirstError(slots, None);
    } else {
      var i: nat := 0;
      while slots[i].Good?
        invariant i < |slots|
        invariant forall j :: 0 <= j < i ==> slots[j].Good?
        invariant !forall j :: 0 <= j < |slots| ==> slots[j].Good?
        decreases |slots| - i
      {
        i := i + 1;
      }
      assert IsFirstError(slots, Some(slots[i].error));
    }
  }

  lemma CollectionExists(slots: seq<Slot>)
    ensures exists r :: Collected(slots, r)
  {
    FirstErrorExists(slots);
    var e :| IsFirstError(slots, e);
    var cases := Successes(slots);
    match e
    case None => assert Collected(slots, Result(cases, None));
    case Some(first) => assert Collected(slots, Result(cases, Some(PartialBatch(|cases|, |slots|, first))));
  }

  /** No reachable state is stuck before the call has returned. */
  lemma NeverStuck(job: Job, states: seq<State>, steps: seq<Step>, k: nat)
    requires IsRun(job, states, steps) && k < |states| && !states[k].dispatcher.Done?
    ensures |states[k].stages| == |states[k].slots| == |states[k].writes| == job.count
    ensures CanStep(job, states[k])
  {
    RunKept(job, states, steps);
    var s := states[k];
    match s.dispatcher
    case Checking =>
      var t := if s.next == job.count then s.(dispatcher := Waiting)
               else if s.cancelled then s.(dispatcher := Draining)
               else s.(dispatcher := Acquiring, waitGroup := s.waitGroup + 1);
      assert Next(job, s, Check, t);
    case Acquiring =>
      if s.semaphore < BATCH_CONCURRENCY {
        assert Next(job, s, Acquire, s.(dispatcher := Launching, semaphore := s.semaphore + 1));
      } else {
        var i := SomeoneWeighs(s.stages, Token);
        GoroutineCanStep(job, s, i);
      }
    case Launching =>
      assert Next(job, s, Launch,
                  s.(dispatcher := Checking, next := s.next + 1, stages := s.stages[s.next := Generating]));
    case Waiting =>
      if s.waitGroup == 0 {
        CollectionExists(Read(s.slots));
        var r :| Collected(Read(s.slots), r);
        assert Next(job, s, Resume, s.(dispatcher := Done(r)));
      } else {
        WeightBounds(s.stages, Pending, Pending);
        var i := SomeoneWeighs(s.stages, Pending);
        GoroutineCanStep(job, s, i);
      }
    case Draining =>
      if s.waitGroup == 0 {
        assert Next(job, s, Resume, s.(dispatcher := Done(Result([], Some(Cancelled)))));
      } else {
        WeightBounds(s.stages, Pending, Pending);
        var i := SomeoneWeighs(s.stages, Pending);
        GoroutineCanStep(job, s, i);
      }
  }

  /** Steps left in the whole system. */
  ghost function Remaining(s: State): int {
    Weight(s.stages, StepsLeft)
    + (match s.dispatcher
       case Checking => 2
       case Acquiring => 1
       case Launching => 0
       case Waiting => 1
       case Draining => 1
       case Done(_) => 0)
    + if s.cancelled then 0 else 1
  }

  lemma StepProgress(job: Job, s: State, step: Step, t: State)
    requires Inv(job, s) && Next(job, s, step, t)
    ensures Remaining(t) == Remaining(s) - 1
  {
    hide Weight, DispatcherOk, Collected;
    StageChange(job, s, step, t, StepsLeft);
    if Concerned(s, step) < job.count {
      assert SlotOk(job, s, Concerned(s, step));
    }
  }

  /** Every run ends: after 7 steps per slot, two more, and one cancellation at most. */
  lemma {:induction false} RunsEnd(job: Job, states: seq<State>, steps: seq<Step>)
    requires IsRun(job, states, steps)
    ensures Remaining(states[|steps|]) == 7 * job.count + 3 - |steps|
    ensures |steps| <= 7 * job.count + 3
  {
    if steps == [] {
      WeightConstant(Init(job).stages, Unlaunched, StepsLeft);
    } else {
      var last := |steps| - 1;
      RunsEnd(job, states[..last + 1], steps[..last]);
      RunKept(job, states, steps);
      assert Next(job, states[last], steps[last], states[last + 1]);
      hide *;
      StepProgress(job, states[last], steps[last], states[last + 1]);
    }
    NothingOwed(states[|steps|]);
  }

  lemma NothingOwed(s: State)
    ensures Remaining(s) >= 0
  {
    WeightBounds(s.stages, StepsLeft, StepsLeft);
  }
}
