/** From stop() to the end of run(): when exactly the shutdown can hang in join(), and how long it takes when it
    does not. */
module Shutdown {
  import opened Words
  import opened Scheduling
  import opened Protocol
  import opened Ownership
  import opened OwnershipSteps
  import opened Runs
  import opened Progress
  import opened Sums
  import Cpu
  import Machine

  // ---- What a shutdown that returns relies on -----------------------------------------------------------

  predicate Halting(r: RunnerPoint) {
    r.StopNotify? || r.StopCore? || r.Join? || r.Done?
  }

  /** A core that holds a process has yet to release it, and one past the stop flag's test after it got none has yet to
      enter onCoreIdle; either ends with notify_all. */
  predicate WillNotify(pt: CorePoint) {
    Held(pt).Some? || pt.Announcing?
  }

  ghost predicate SomeWillNotify(s: Os) {
    exists c :: 0 <= c < |s.cores| && WillNotify(s.cores[c])
  }

  /** No core is asleep, or about to be, with no wake-up to come from stop(). */
  ghost predicate NobodyForgotten(s: Os) {
    s.mutex.None? && (!s.runner.StopNotify? ==> forall c :: 0 <= c < |s.cores| ==> s.cores[c] != Asleep(false))
  }

  /** Some core has yet to wake all sleepers, or there is nobody left to wake. */
  ghost predicate Going(s: Os) {
    Halting(s.runner) && (SomeWillNotify(s) || NobodyForgotten(s))
  }

  /** Once running_ is cleared, a core that holds a process has halted it. */
  lemma HeldHalted(s: Os, c: nat, quantum: nat)
    requires Inv(s, quantum) && Stopping(s.runner) && c < |s.cores|
    ensures !s.cores[c].Holding? && !s.cores[c].Chosen? && !s.cores[c].Fetched? && !s.cores[c].NotStarted?
    ensures s.cores[c].Executed? ==> s.cores[c].o == Machine.Halt(true)
    ensures s.cores[c].Marked? ==> s.halted[s.cores[c].p]
  {
    assert PointOk(s, c);
  }

  /** A notification that is due stays due, unless this step makes it. */
  lemma PromiseStays(s: Os, a: Action, c: nat, d: nat, quantum: nat)
    requires Inv(s, quantum) && Halting(s.runner) && c < |s.cores| && CoreStep(s, a, c, quantum).Some?
    requires d < |s.cores| && WillNotify(s.cores[d]) && (d == c ==> s.cores[c].Executed?)
    ensures SomeWillNotify(CoreStep(s, a, c, quantum).value) && CoreStep(s, a, c, quantum).value.runner == s.runner
  {
    HeldHalted(s, c, quantum);
    hide PointsOk, RunningHeld, QuantumOk, ShutdownOk, QueueOk, AddReady, Pick, SleepOk, RunnerOk;
    assert WillNotify(CoreStep(s, a, c, quantum).value.cores[d]);
  }

  /** A release or announcement wakes everybody. */
  lemma NotifyFrees(s: Os, a: Action, c: nat, quantum: nat)
    requires Inv(s, quantum) && Halting(s.runner) && c < |s.cores| && (s.cores[c].Marked? || s.cores[c].Announcing?)
    requires CoreStep(s, a, c, quantum).Some?
    ensures NobodyForgotten(CoreStep(s, a, c, quantum).value) && CoreStep(s, a, c, quantum).value.runner == s.runner
  {
    hide QueueOk, PointsOk, RunningHeld, SleepOk, QuantumOk, RunnerOk, ShutdownOk, AddReady, Pick;
  }

  lemma FreeStays(s: Os, a: Action, c: nat, quantum: nat)
    requires Inv(s, quantum) && Halting(s.runner) && NobodyForgotten(s) && c < |s.cores| && !WillNotify(s.cores[c])
    requires CoreStep(s, a, c, quantum).Some?
    ensures NobodyForgotten(CoreStep(s, a, c, quantum).value) && CoreStep(s, a, c, quantum).value.runner == s.runner
  {
    HeldHalted(s, c, quantum);
    hide QueueOk, PointsOk, RunningHeld, QuantumOk, ShutdownOk, AddReady, Pick;
  }

  lemma CoreKeepsGoing(s: Os, a: Action, c: nat, quantum: nat)
    requires Inv(s, quantum) && Going(s) && c < |s.cores| && CoreStep(s, a, c, quantum).Some?
    ensures Going(CoreStep(s, a, c, quantum).value)
  {
    hide Inv, NobodyForgotten, CoreStep;
    HeldHalted(s, c, quantum);
    if s.cores[c].Marked? || s.cores[c].Announcing? {
      NotifyFrees(s, a, c, quantum);
    } else if d: nat :| d < |s.cores| && WillNotify(s.cores[d]) {
      PromiseStays(s, a, c, d, quantum);
    } else {
      FreeStays(s, a, c, quantum);
    }
  }

  lemma RunnerKeepsGoing(s: Os, quantum: nat)
    requires Inv(s, quantum) && Going(s) && RunnerNext(s).Some?
    ensures Going(RunnerNext(s).value)
  {
    hide PointsOk, RunningHeld, QuantumOk, ShutdownOk, QueueOk, AddReady, Pick;
    var t := RunnerNext(s).value;
    if d: nat :| d < |s.cores| && WillNotify(s.cores[d]) {
      assert WillNotify(t.cores[d]);
    }
  }

  /** Every step, spurious or not, keeps the shutdown going, ... */
  lemma GoingKept(s: Os, a: Action, quantum: nat)
    requires Inv(s, quantum) && Going(s) && Next(s, a, quantum).Some?
    ensures Going(Next(s, a, quantum).value)
  {
    hide SomeWillNotify, NobodyForgotten, Inv, CoreStep, RunnerNext;
    if a.RunnerStep? {
      RunnerKeepsGoing(s, quantum);
    } else if !a.RunnerSpurious? {
      CoreKeepsGoing(s, a, a.c, quantum);
    }
  }

  /** ... and some step is possible until run() returns. */
  lemma GoingSteps(s: Os, quantum: nat)
    requires Inv(s, quantum) && Going(s) && !s.crashed && s.runner != Done
    ensures CanStep(s, quantum)
  {
    if s.mutex.Some? {
      assert Next(s, Sleep(s.mutex.value), quantum).Some?;
    } else if c: nat :| c < |s.cores| && WillNotify(s.cores[c]) {
      if s.cores[c].Announcing? {
        assert Next(s, Announce(c), quantum).Some?;
      } else {
        BusyCoreSteps(s, c, quantum);
      }
    } else if s.runner.Join? {
      SettledProgress(s, quantum);
    } else {
      assert Next(s, RunnerStep, quantum).Some?;
    }
  }

  lemma SettledGoing(s: Os, quantum: nat)
    requires Inv(s, quantum) && Settled(s)
    ensures Going(s)
  {
  }

  // ---- The time from join() to the end ------------------------------------------------------------------

  /** The steps a core can still take when every stop flag is set. */
  function Left(pt: CorePoint): int {
    match pt
    case Exited => 0
    case Idle => 1
    case GotNull => 1
    case Acquiring => 2
    case Asleep(_) => 2
    case Announcing => 2
    case CallbackDue => 2
    case Deciding => 3
    case Marked(_) => 3
    case _ => 4
  }

  function Lefts(cores: seq<CorePoint>): (r: seq<int>)
    ensures |r| == |cores| && forall c :: 0 <= c < |cores| ==> r[c] == Left(cores[c])
  {
    seq(|cores|, c requires 0 <= c < |cores| => Left(cores[c]))
  }

  function JoinWeight(s: Os): int {
    Sum(Lefts(s.cores)) + if s.runner.Join? then 1 else 0
  }

  lemma LeftUpdate(cores: seq<CorePoint>, c: nat, pt: CorePoint)
    requires c < |cores|
    ensures Sum(Lefts(cores[c := pt])) == Sum(Lefts(cores)) - Left(cores[c]) + Left(pt)
  {
    hide Left, Sum;
    assert Lefts(cores[c := pt]) == Lefts(cores)[c := Left(pt)];
    SumUpdate(Lefts(cores), c, Left(pt));
  }

  lemma LeftWake(cores: seq<CorePoint>)
    ensures Sum(Lefts(WakeAll(cores))) == Sum(Lefts(cores))
  {
    assert Lefts(WakeAll(cores)) == Lefts(cores);
  }

  lemma JoinWeightBounds(s: Os)
    ensures 0 <= JoinWeight(s) <= 4 * |s.cores| + 1
  {
    hide Sum;
    var ls := Lefts(s.cores);
    var none := seq(|ls|, _ => 0);
    SumConstant(none, 0);
    SumClose(none, ls, 0);
    SumClose(ls, none, 4);
  }

  predicate Joining(r: RunnerPoint) {
    r.Join? || r.Done?
  }

  lemma CoreNearsEnd(s: Os, a: Action, c: nat, quantum: nat)
    requires Inv(s, quantum) && Joining(s.runner) && c < |s.cores| && CoreStep(s, a, c, quantum).Some?
    ensures var t := CoreStep(s, a, c, quantum).value;
            && t.runner == s.runner && t.crashed == s.crashed && |t.cores| == |s.cores|
            && (t.cores == s.cores[c := t.cores[c]] || t.cores == WakeAll(s.cores)[c := t.cores[c]])
            && Left(t.cores[c]) + (if Spurious(a) then 0 else 1) <= Left(s.cores[c])
  {
    HeldHalted(s, c, quantum);
    hide PointsOk, RunningHeld, QuantumOk, ShutdownOk, QueueOk, SleepOk, AddReady, Pick;
  }

  /** Once run() joins its cores, each step other than a spurious wake-up leaves fewer to take. */
  lemma NearsEnd(s: Os, a: Action, quantum: nat)
    requires Inv(s, quantum) && Joining(s.runner) && Next(s, a, quantum).Some?
    ensures var t := Next(s, a, quantum).value;
            && Joining(t.runner) && !t.crashed && |t.cores| == |s.cores|
            && JoinWeight(t) + (if Spurious(a) then 0 else 1) <= JoinWeight(s)
  {
    hide CoreStep, QueueOk, PointsOk, RunningHeld, SleepOk, QuantumOk, RunnerOk, ShutdownOk, Lefts, Sum;
    if !a.RunnerStep? && !a.RunnerSpurious? {
      var t := Next(s, a, quantum).value;
      CoreNearsEnd(s, a, a.c, quantum);
      LeftUpdate(s.cores, a.c, t.cores[a.c]);
      LeftWake(s.cores);
      LeftUpdate(WakeAll(s.cores), a.c, t.cores[a.c]);
    }
  }

  /** So no run takes more than four steps a core and one more from there, spurious wake-ups aside. */
  lemma {:induction false} JoinBounded(s: Os, acts: seq<Action>, quantum: nat)
    requires Inv(s, quantum) && Joining(s.runner) && Run(s, acts, quantum).Some?
    ensures |acts| - SpuriousCount(acts) <= JoinWeight(s) <= 4 * |s.cores| + 1
    decreases |acts|
  {
    hide QueueOk, PointsOk, RunningHeld, SleepOk, QuantumOk, RunnerOk, ShutdownOk, Shape, JoinWeight, Next, Joining;
    hide Spurious;
    JoinWeightBounds(s);
    if acts == [] {
    } else {
      NearsEnd(s, acts[0], quantum);
      StepKeeps(s, acts[0], quantum);
      JoinBounded(Next(s, acts[0], quantum).value, acts[1..], quantum);
    }
  }

  // ---- Exactly when the shutdown can hang ---------------------------------------------------------------

  /** run() waits in join() and nothing but a spurious wake-up can happen any more. */
  ghost predicate Hung(s: Os, quantum: nat) {
    Shape(s) && !s.crashed && s.runner == Join && !CanStep(s, quantum)
  }

  /** A shutdown that cannot go on has returned from run() or hangs. */
  lemma StuckAtEnd(s: Os, quantum: nat)
    requires Inv(s, quantum) && Stopping(s.runner) && !s.crashed && !CanStep(s, quantum)
    ensures s.runner == Done || Hung(s, quantum)
  {
    hide QueueOk, PointsOk, RunningHeld, SleepOk, QuantumOk, ShutdownOk, AddReady, Pick;
    assert !Spurious(RunnerStep) && Next(s, RunnerStep, quantum).None?;
  }

  /** No instruction is fetched or executed any more. */
  lemma NoInstruction(s: Os, a: Action, quantum: nat)
    requires Inv(s, quantum) && Stopping(s.runner) && Next(s, a, quantum).Some?
    ensures !(a.Fetch? && Next(s, a, quantum).value.cores[a.c].Fetched?) && !a.FetchFault? && !a.Execute?
  {
    if !a.RunnerStep? && !a.RunnerSpurious? {
      HeldHalted(s, a.c, quantum);
    }
    hide QueueOk, PointsOk, RunningHeld, SleepOk, QuantumOk, ShutdownOk, AddReady, Pick;
  }

  ghost predicate HangsAfter(s: Os, acts: seq<Action>, quantum: nat)
    requires Inv(s, quantum)
  {
    Run(s, acts, quantum).Some? && Hung(Run(s, acts, quantum).value, quantum)
  }

  lemma {:induction false} GoingNeverHangs(s: Os, acts: seq<Action>, quantum: nat)
    requires Inv(s, quantum) && Going(s)
    ensures !HangsAfter(s, acts, quantum)
    decreases |acts|
  {
    hide QueueOk, PointsOk, RunningHeld, SleepOk, QuantumOk, RunnerOk, ShutdownOk, Shape, Going, Next, CanStep;
    if acts == [] {
      if Hung(s, quantum) {
        GoingSteps(s, quantum);
      }
    } else if Next(s, acts[0], quantum).Some? {
      GoingKept(s, acts[0], quantum);
      StepKeeps(s, acts[0], quantum);
      GoingNeverHangs(Next(s, acts[0], quantum).value, acts[1..], quantum);
    }
  }

  lemma RunnerStaysLost(s: Os, quantum: nat)
    requires Inv(s, quantum) && Halting(s.runner) && !Going(s) && RunnerNext(s).Some?
    ensures var t := RunnerNext(s).value; Halting(t.runner) && t.runner != Done && t.runner != StopNotify && !Going(t)
    ensures |RunnerNext(s).value.cores| == |s.cores| && RunnerNext(s).value.crashed == s.crashed
  {
    hide PointsOk, RunningHeld, QuantumOk, ShutdownOk, QueueOk, AddReady, Pick;
    var t := RunnerNext(s).value;
    if s.mutex.None? {
      var c: nat :| c < |s.cores| && s.cores[c] == Asleep(false);
      assert s.runner != StopNotify;
    } else {
      assert s.cores[s.mutex.value] == Deciding;
    }
    forall d | 0 <= d < |t.cores|
      ensures !WillNotify(t.cores[d])
    {
      assert !WillNotify(s.cores[d]);
    }
  }

  /** When run() joins, no step but a spurious wake-up can help a forgotten core. */
  lemma CoreStaysLost(s: Os, a: Action, quantum: nat)
    requires Inv(s, quantum) && s.runner == Join && !Going(s) && Next(s, a, quantum).Some? && !Spurious(a)
    ensures var t := Next(s, a, quantum).value; t.runner == Join && !Going(t)
  {
    if a.RunnerStep? {
      RunnerStaysLost(s, quantum);
    } else {
      var t, c := Next(s, a, quantum).value, a.c;
      assert !WillNotify(s.cores[c]);
      hide PointsOk, RunningHeld, QuantumOk, ShutdownOk, QueueOk, AddReady, Pick;
      assert t.cores == s.cores[c := t.cores[c]] && !WillNotify(t.cores[c]);
      if s.mutex == Some(c) {
        assert t.cores[c] == Asleep(false);
      } else if s.mutex.None? {
        var d: nat :| d < |s.cores| && s.cores[d] == Asleep(false);
        assert t.cores[d] == Asleep(false);
      }
    }
  }

  function RunnerLeft(s: Os): int {
    match s.runner
    case StopNotify => |s.cores| + 2
    case StopCore(i) => |s.cores| + 1 - i
    case _ => 0
  }

  lemma RunnerNears(s: Os, quantum: nat)
    requires Inv(s, quantum) && (s.runner.StopNotify? || s.runner.StopCore?) && !s.crashed
    ensures Next(s, RunnerStep, quantum).Some? && RunnerLeft(s) > RunnerLeft(Next(s, RunnerStep, quantum).value) >= 0
  {
    hide PointsOk, RunningHeld, QuantumOk, ShutdownOk, QueueOk, SleepOk, AddReady, Pick;
  }

  lemma RunStep(s: Os, a: Action, rest: seq<Action>, quantum: nat)
    requires Inv(s, quantum) && Next(s, a, quantum).Some?
    ensures Inv(Next(s, a, quantum).value, quantum)
    ensures Run(s, [a] + rest, quantum) == Run(Next(s, a, quantum).value, rest, quantum)
    ensures SpuriousCount([a] + rest) == SpuriousCount(rest) + if Spurious(a) then 1 else 0
  {
    StepKeeps(s, a, quantum);
    assert ([a] + rest)[1..] == rest;
  }

  lemma {:induction false} LostAtJoin(s: Os, quantum: nat) returns (acts: seq<Action>)
    requires Inv(s, quantum) && s.runner == Join && !Going(s) && !s.crashed
    ensures SpuriousCount(acts) == 0 && HangsAfter(s, acts, quantum)
    decreases JoinWeight(s)
  {
    hide QueueOk, PointsOk, RunningHeld, SleepOk, QuantumOk, RunnerOk, ShutdownOk, Shape, Going, Next, JoinWeight;
    if CanStep(s, quantum) {
      var a :| !Spurious(a) && Next(s, a, quantum).Some?;
      var t := Next(s, a, quantum).value;
      CoreStaysLost(s, a, quantum);
      NearsEnd(s, a, quantum);
      JoinWeightBounds(t);
      StepKeeps(s, a, quantum);
      var rest := LostAtJoin(t, quantum);
      acts := [a] + rest;
      RunStep(s, a, rest, quantum);
    } else {
      acts := [];
    }
  }

  /** From a shutdown that is not going: stop() sets every stop flag, then the cores do what they can. */
  lemma {:induction false} LostHangs(s: Os, quantum: nat) returns (acts: seq<Action>)
    requires Inv(s, quantum) && Halting(s.runner) && s.runner != Done && !Going(s) && !s.crashed
    ensures SpuriousCount(acts) == 0 && HangsAfter(s, acts, quantum)
    decreases RunnerLeft(s)
  {
    hide QueueOk, PointsOk, RunningHeld, SleepOk, QuantumOk, RunnerOk, ShutdownOk, Shape, Going, RunnerNext, RunnerLeft;
    hide CanStep, Hung;
    if s.runner == Join {
      acts := LostAtJoin(s, quantum);
    } else {
      RunnerNears(s, quantum);
      RunnerStaysLost(s, quantum);
      StepKeeps(s, RunnerStep, quantum);
      var rest := LostHangs(RunnerNext(s).value, quantum);
      acts := [RunnerStep] + rest;
      RunStep(s, RunnerStep, rest, quantum);
    }
  }

  /** Without any spurious wake-up. */
  ghost predicate CanHang(s: Os, quantum: nat)
    requires Inv(s, quantum)
  {
    exists acts :: SpuriousCount(acts) == 0 && HangsAfter(s, acts, quantum)
  }

  /** The shutdown can hang in join() exactly when, as stop() notifies, a core holds the scheduler mutex on its way to
      sleep, no core holds a process and no core is past its flag test on its way to notify; later, when a core is on
      its way to sleep or asleep with no wake-up to come. Spurious wake-ups add no other case. */
  lemma HangExactly(s: Os, quantum: nat)
    requires Inv(s, quantum) && !s.crashed && (s.runner.StopNotify? || s.runner.StopCore? || s.runner.Join?)
    ensures CanHang(s, quantum) <==>
              && (forall c :: 0 <= c < |s.cores| ==> Held(s.cores[c]).None? && !s.cores[c].Announcing?)
              && (s.mutex.Some? || (s.runner != StopNotify &&
                      exists c :: 0 <= c < |s.cores| && s.cores[c] == Asleep(false)))
    ensures (exists acts :: HangsAfter(s, acts, quantum)) ==> CanHang(s, quantum)
  {
    hide Inv, HangsAfter, SpuriousCount;
    if Going(s) {
      forall acts
        ensures !HangsAfter(s, acts, quantum)
      {
        GoingNeverHangs(s, acts, quantum);
      }
    } else {
      var acts := LostHangs(s, quantum);
    }
  }

  lemma {:induction false} FateSealed(s: Os, acts: seq<Action>, quantum: nat)
    requires Inv(s, quantum) && Joining(s.runner) && (s.runner == Join || Going(s)) && !s.crashed
    requires SpuriousCount(acts) == 0 && Run(s, acts, quantum).Some?
    ensures var t := Run(s, acts, quantum).value;
            Inv(t, quantum) && Joining(t.runner) && !t.crashed
            && (Going(t) <==> Going(s)) && (!Going(s) ==> t.runner == Join)
    decreases |acts|
  {
    hide QueueOk, PointsOk, RunningHeld, SleepOk, QuantumOk, RunnerOk, ShutdownOk, Shape, Going, Next, Spurious;
    if acts == [] {
    } else {
      NearsEnd(s, acts[0], quantum);
      StepKeeps(s, acts[0], quantum);
      if Going(s) {
        GoingKept(s, acts[0], quantum);
      } else {
        CoreStaysLost(s, acts[0], quantum);
      }
      FateSealed(Next(s, acts[0], quantum).value, acts[1..], quantum);
    }
  }

  /** By the time run() joins its cores the race is decided: without spurious wake-ups, whatever the interleaving, a run
      from there that cannot be extended has returned if the shutdown was going, and hangs if it was not. */
  lemma JoinDecides(s: Os, acts: seq<Action>, quantum: nat)
    requires Inv(s, quantum) && s.runner == Join && !s.crashed
    requires SpuriousCount(acts) == 0 && Run(s, acts, quantum).Some?
    ensures var t := Run(s, acts, quantum).value;
            Shape(t) && (!CanStep(t, quantum) ==> t.runner == if Going(s) then Done else Join)
  {
    hide QueueOk, PointsOk, RunningHeld, SleepOk, QuantumOk, RunnerOk, ShutdownOk, Shape, Going, Next, CanStep;
    FateSealed(s, acts, quantum);
    var t := Run(s, acts, quantum).value;
    if Going(s) && t.runner != Done {
      GoingSteps(t, quantum);
    }
  }

  // ---- Before running_ is cleared -----------------------------------------------------------------------

  function HeldLeft(pt: CorePoint): int {
    match pt
    case Executed(_, _) => 2
    case Marked(_) => 1
    case _ => 0
  }

  function HeldLefts(cores: seq<CorePoint>): (r: seq<int>)
    ensures |r| == |cores| && forall c :: 0 <= c < |cores| ==> r[c] == HeldLeft(cores[c])
  {
    seq(|cores|, c requires 0 <= c < |cores| => HeldLeft(cores[c]))
  }

  function HeldWeight(s: Os): int {
    Sum(HeldLefts(s.cores))
  }

  lemma HeldLeftMoves(cores: seq<CorePoint>, c: nat, pt: CorePoint)
    requires c < |cores|
    ensures Sum(HeldLefts(cores[c := pt])) == Sum(HeldLefts(cores)) - HeldLeft(cores[c]) + HeldLeft(pt)
    ensures Sum(HeldLefts(WakeAll(cores))) == Sum(HeldLefts(cores)) >= 0
  {
    hide Sum;
    assert HeldLefts(cores[c := pt]) == HeldLefts(cores)[c := HeldLeft(pt)];
    SumUpdate(HeldLefts(cores), c, HeldLeft(pt));
    assert HeldLefts(WakeAll(cores)) == HeldLefts(cores);
    var none := seq(|cores|, _ => 0);
    SumConstant(none, 0);
    SumClose(none, HeldLefts(cores), 0);
  }

  /** A step from s to t while stop() is about to clear running_. */
  ghost predicate Ahead(s: Os, a: Action, t: Os, quantum: nat) {
    && Shape(s) && Next(s, a, quantum) == Some(t) && t.runner == StopFlag && !t.crashed && |t.cores| == |s.cores|
  }

  ghost predicate SomeAwake(s: Os) {
    exists c :: 0 <= c < |s.cores| && s.cores[c] != Asleep(false)
  }

  lemma NotifierAwake(s: Os)
    requires SomeWillNotify(s)
    ensures SomeAwake(s)
  {
    var c: nat :| c < |s.cores| && WillNotify(s.cores[c]);
    assert s.cores[c] != Asleep(false);
  }

  /** While running_ is set, no core has been given null. */
  lemma HolderAhead(s: Os, c: nat, quantum: nat)
    requires Inv(s, quantum) && s.runner == StopFlag && c < |s.cores|
    ensures s.running && !s.cores[c].GotNull? && !s.cores[c].Announcing?
  {
    hide QueueOk, PointsOk, RunningHeld, SleepOk, QuantumOk, ShutdownOk;
  }

  lemma HeldAhead(s: Os, c: nat, quantum: nat)
    requires Inv(s, quantum) && s.runner == StopFlag && !s.crashed && s.mutex.None? && c < |s.cores|
    requires Held(s.cores[c]).Some?
    ensures var a, pt := if s.cores[c].Executed? then Finish(c) else Release(c),
                         if s.cores[c].Executed? then Marked(s.cores[c].p) else CallbackDue;
            && HeldLeft(pt) < HeldLeft(s.cores[c]) && Next(s, a, quantum).Some?
            && var t := Next(s, a, quantum).value;
               && t.runner == StopFlag && !t.crashed && |t.cores| == |s.cores|
               && (t.cores == s.cores[c := pt] || t.cores == WakeAll(s.cores)[c := pt])
  {
    hide QueueOk, PointsOk, RunningHeld, SleepOk, QuantumOk, RunnerOk, ShutdownOk, AddReady, Pick, WakeAll;
    HeldHalted(s, c, quantum);
  }

  lemma ReleaseAhead(s: Os, quantum: nat) returns (a: Action)
    requires Inv(s, quantum) && s.runner == StopFlag && !s.crashed && s.mutex.None? && SomeWillNotify(s)
    ensures Next(s, a, quantum).Some?
    ensures !Spurious(a)
    ensures var t := Next(s, a, quantum).value;
            Ahead(s, a, t, quantum) && SomeAwake(t) && 0 <= HeldWeight(t) < HeldWeight(s)
  {
    hide QueueOk, PointsOk, RunningHeld, SleepOk, QuantumOk, RunnerOk, ShutdownOk, CoreStep, Sum, HeldLefts, HeldLeft;
    var c: nat :| c < |s.cores| && WillNotify(s.cores[c]);
    HolderAhead(s, c, quantum);
    HeldAhead(s, c, quantum);
    a := if s.cores[c].Executed? then Finish(c) else Release(c);
    var pt := if s.cores[c].Executed? then Marked(s.cores[c].p) else CallbackDue;
    HeldLeftMoves(s.cores, c, pt);
    HeldLeftMoves(WakeAll(s.cores), c, pt);
    HeldLeftMoves(Next(s, a, quantum).value.cores, c, pt);
    assert Next(s, a, quantum).value.cores[c] == pt;
    assert WakeAll(s.cores)[c] == s.cores[c];
  }

  lemma SleepAhead(s: Os, quantum: nat)
    requires Inv(s, quantum) && s.runner == StopFlag && !s.crashed && s.mutex.Some? && SomeWillNotify(s)
    ensures var a := Sleep(s.mutex.value);
            && Next(s, a, quantum).Some? && Ahead(s, a, Next(s, a, quantum).value, quantum)
            && var t := Next(s, a, quantum).value; HeldWeight(t) == HeldWeight(s) && t.mutex.None? && SomeWillNotify(t)
  {
    hide PointsOk, RunningHeld, QuantumOk, ShutdownOk, QueueOk, RunnerOk, AddReady, Pick, Sum, HeldLefts;
    var m := s.mutex.value;
    HeldLeftMoves(s.cores, m, Asleep(false));
    var c: nat :| c < |s.cores| && WillNotify(s.cores[c]);
    assert WillNotify(Next(s, Sleep(m), quantum).value.cores[c]);
  }

  lemma QueuedNotHalted(s: Os, quantum: nat)
    requires Inv(s, quantum)
    ensures s.sched.queue != [] ==> !EveryHalted(s.sched.states)
  {
    if s.sched.queue != [] {
      assert s.sched.states[s.sched.queue[0]] == Cpu.Ready;
    }
  }

  /** running_ is cleared while a core decides to sleep and no process is held: its wake-up will be lost. */
  lemma FlagLost(s: Os, quantum: nat)
    requires Inv(s, quantum) && s.runner == StopFlag && !s.crashed && s.mutex.Some? && !SomeWillNotify(s)
    ensures Next(s, RunnerStep, quantum).Some?
    ensures var t := Next(s, RunnerStep, quantum).value;
            Inv(t, quantum) && t.runner == StopNotify && !t.crashed && !Going(t)
  {
    StepKeeps(s, RunnerStep, quantum);
    hide QueueOk, PointsOk, RunningHeld, SleepOk, QuantumOk, RunnerOk, ShutdownOk, AddReady, Pick;
    assert Next(s, RunnerStep, quantum).value.cores == s.cores;
  }

  lemma FlagHangs(s: Os, quantum: nat) returns (acts: seq<Action>)
    requires Inv(s, quantum) && s.runner == StopFlag && !s.crashed && s.mutex.Some? && !SomeWillNotify(s)
    ensures SpuriousCount(acts) == 0 && HangsAfter(s, acts, quantum)
  {
    hide QueueOk, PointsOk, RunningHeld, SleepOk, QuantumOk, RunnerOk, ShutdownOk, Shape, RunnerNext, Hung;
    FlagLost(s, quantum);
    var rest := LostHangs(Next(s, RunnerStep, quantum).value, quantum);
    acts := [RunnerStep] + rest;
    RunStep(s, RunnerStep, rest, quantum);
  }

  /** The steps that an awake core with nothing to do takes until it is about to enter acquireProcess. */
  function IdleLeft(pt: CorePoint): nat {
    if pt.CallbackDue? then 2 else if pt.Idle? then 1 else 0
  }

  /** Such a core comes to hold the mutex on its way to sleep. */
  lemma IdleAhead(s: Os, c: nat, quantum: nat) returns (a: Action)
    requires Inv(s, quantum) && s.runner == StopFlag && !s.crashed && s.mutex.None? && !SomeWillNotify(s)
    requires c < |s.cores| && s.cores[c] != Asleep(false)
    ensures Next(s, a, quantum).Some? && !Spurious(a)
    ensures var t := Next(s, a, quantum).value;
            && t.runner == StopFlag && !t.crashed && |t.cores| == |s.cores| && !SomeWillNotify(t)
            && (t.mutex.Some? || (t.cores[c] != Asleep(false) && IdleLeft(t.cores[c]) < IdleLeft(s.cores[c])))
  {
    HeldHalted(s, c, quantum);
    HolderAhead(s, c, quantum);
    QueuedNotHalted(s, quantum);
    assert !WillNotify(s.cores[c]);
    hide PointsOk, RunningHeld, QuantumOk, ShutdownOk, QueueOk, AddReady, Pick;
    a := if s.cores[c].CallbackDue? then Callback(c) else if s.cores[c].Idle? then Loop(c) else Check(c);
    var t := Next(s, a, quantum).value;
    assert t.cores == s.cores[c := t.cores[c]] && !WillNotify(t.cores[c]);
  }

  lemma {:induction false} IdleHangs(s: Os, c: nat, quantum: nat) returns (acts: seq<Action>)
    requires Inv(s, quantum) && s.runner == StopFlag && !s.crashed && s.mutex.None? && !SomeWillNotify(s)
    requires c < |s.cores| && s.cores[c] != Asleep(false)
    ensures SpuriousCount(acts) == 0 && HangsAfter(s, acts, quantum)
    decreases IdleLeft(s.cores[c])
  {
    hide QueueOk, PointsOk, RunningHeld, SleepOk, QuantumOk, RunnerOk, ShutdownOk, Shape, Next, Hung, SomeWillNotify;
    hide IdleLeft;
    var a := IdleAhead(s, c, quantum);
    var t := Next(s, a, quantum).value;
    StepKeeps(s, a, quantum);
    var rest;
    if t.mutex.Some? {
      rest := FlagHangs(t, quantum);
    } else {
      rest := IdleHangs(t, c, quantum);
    }
    acts := [a] + rest;
    RunStep(s, a, rest, quantum);
  }

  lemma {:induction false} AwakeHangs(s: Os, quantum: nat) returns (acts: seq<Action>)
    requires Inv(s, quantum) && s.runner == StopFlag && !s.crashed && SomeAwake(s)
    ensures SpuriousCount(acts) == 0 && HangsAfter(s, acts, quantum)
    decreases HeldWeight(s), if s.mutex.Some? then 1 else 0
  {
    hide QueueOk, PointsOk, RunningHeld, SleepOk, QuantumOk, RunnerOk, ShutdownOk, Shape, Next, HeldWeight, Hung;
    hide SomeWillNotify;
    if SomeWillNotify(s) {
      var a;
      if s.mutex.Some? {
        a := Sleep(s.mutex.value);
        SleepAhead(s, quantum);
        NotifierAwake(Next(s, a, quantum).value);
      } else {
        a := ReleaseAhead(s, quantum);
      }
      StepKeeps(s, a, quantum);
      var rest := AwakeHangs(Next(s, a, quantum).value, quantum);
      acts := [a] + rest;
      RunStep(s, a, rest, quantum);
    } else if s.mutex.Some? {
      acts := FlagHangs(s, quantum);
    } else {
      var c: nat :| c < |s.cores| && s.cores[c] != Asleep(false);
      acts := IdleHangs(s, c, quantum);
    }
  }

  /** When all cores sleep un-notified, stop() clears running_, and its notify_all reaches them all. */
  lemma AsleepGoes(s: Os, a: Action, quantum: nat)
    requires Inv(s, quantum) && s.runner == StopFlag && !SomeAwake(s) && Next(s, a, quantum).Some? && !Spurious(a)
    ensures var t := Next(s, a, quantum).value; Inv(t, quantum) && Going(t)
  {
    StepKeeps(s, a, quantum);
    hide QueueOk, PointsOk, RunningHeld, QuantumOk, RunnerOk, ShutdownOk;
  }

  lemma AsleepReturns(s: Os, acts: seq<Action>, quantum: nat)
    requires Inv(s, quantum) && s.runner == StopFlag && !SomeAwake(s) && SpuriousCount(acts) == 0
    ensures !HangsAfter(s, acts, quantum)
  {
    if acts != [] && Next(s, acts[0], quantum).Some? {
      AsleepGoes(s, acts[0], quantum);
      hide Inv, Going, Next, SomeAwake;
      GoingNeverHangs(Next(s, acts[0], quantum).value, acts[1..], quantum);
    }
  }

  /** As long as running_ is still set, the shutdown can come to hang exactly when some core is awake. */
  lemma HangAhead(s: Os, quantum: nat)
    requires Inv(s, quantum) && !s.crashed && s.runner == StopFlag
    ensures CanHang(s, quantum) <==> SomeAwake(s)
  {
    hide Inv, HangsAfter, SpuriousCount, SomeAwake;
    if SomeAwake(s) {
      var acts := AwakeHangs(s, quantum);
    } else {
      forall acts | SpuriousCount(acts) == 0
        ensures !HangsAfter(s, acts, quantum)
      {
        AsleepReturns(s, acts, quantum);
      }
    }
  }
}
