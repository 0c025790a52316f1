/** No process starves: while one waits in the queue, the instructions that all cores together execute are bounded. */
module Waiting {
  import opened Words
  import opened Scheduling
  import opened Protocol
  import opened Ownership
  import opened OwnershipSteps
  import opened Runs
  import opened Sums
  import CoreLoop

  /** The instructions that a core can still execute in its present hold. */
  function Budget(pt: CorePoint, ran: nat, quantum: nat): int {
    if Held(pt).Some? && !pt.Marked? then CoreLoop.Limit(quantum) - ran else 0
  }

  function Budgets(s: Os, quantum: nat): (r: seq<int>)
    requires |s.ran| == |s.cores|
    ensures |r| == |s.cores| && forall c :: 0 <= c < |r| ==> r[c] == Budget(s.cores[c], s.ran[c], quantum)
  {
    seq(|s.cores|, c requires 0 <= c < |s.cores| => Budget(s.cores[c], s.ran[c], quantum))
  }

  function Executions(acts: seq<Action>): nat {
    if acts == [] then 0 else (if acts[0].Execute? then 1 else 0) + Executions(acts[1..])
  }

  lemma BudgetBounds(s: Os, c: nat, quantum: nat)
    requires Inv(s, quantum) && c < |s.cores|
    ensures 0 <= Budget(s.cores[c], s.ran[c], quantum) <= CoreLoop.Limit(quantum)
    ensures s.cores[c].Fetched? ==> Budget(s.cores[c], s.ran[c], quantum) >= 1
  {
    hide QueueOk, PointsOk, RunningHeld, SleepOk, QuantumOk, RunnerOk, ShutdownOk;
    PointOf(s, c, quantum);
  }

  lemma BudgetsBounded(s: Os, quantum: nat)
    requires Inv(s, quantum)
    ensures 0 <= Sum(Budgets(s, quantum)) <= CoreLoop.Limit(quantum) * |s.cores|
  {
    hide QueueOk, PointsOk, RunningHeld, SleepOk, QuantumOk, RunnerOk, ShutdownOk, Sum, Budget, CoreLoop.Limit;
    var all, none := Budgets(s, quantum), seq(|s.cores|, _ => 0);
    forall c | 0 <= c < |s.cores|
      ensures 0 <= all[c] <= CoreLoop.Limit(quantum)
    {
      BudgetBounds(s, c, quantum);
    }
    SumConstant(none, 0);
    SumClose(none, all, 0);
    SumClose(all, none, CoreLoop.Limit(quantum));
  }

  /** At most core c has moved on. */
  ghost predicate OneCore(s: Os, t: Os, c: nat) {
    && |t.cores| == |s.cores| == |t.ran| == |s.ran| && c < |s.cores|
    && forall d :: 0 <= d < |s.cores| && d != c ==>
         (t.cores[d] == s.cores[d] || t.cores[d] == Wake(s.cores[d])) && t.ran[d] == s.ran[d]
  }

  lemma BudgetsMove(s: Os, t: Os, c: nat, quantum: nat)
    requires OneCore(s, t, c)
    ensures Sum(Budgets(t, quantum)) == Sum(Budgets(s, quantum)) - Budget(s.cores[c], s.ran[c], quantum)
                                        + Budget(t.cores[c], t.ran[c], quantum)
  {
    hide Sum;
    var b := Budget(t.cores[c], t.ran[c], quantum);
    assert Budgets(t, quantum) == Budgets(s, quantum)[c := b];
    SumUpdate(Budgets(s, quantum), c, b);
  }

  lemma AcquireBudget(s: Os, c: nat, quantum: nat)
    requires Inv(s, quantum) && c < |s.cores| && Held(s.cores[c]).None?
    ensures var t := Acquire(s, c, quantum);
            && OneCore(s, t, c)
            && Budget(t.cores[c], t.ran[c], quantum) == if t.cores[c].Chosen? then CoreLoop.Limit(quantum) else 0
  {
    hide QueueOk, PointsOk, RunningHeld, SleepOk, QuantumOk, RunnerOk, ShutdownOk, Pick;
  }

  /** Only acquiring a process adds to a core's budget, and executing an instruction takes one from it. */
  lemma CoreBudget(s: Os, a: Action, c: nat, quantum: nat)
    requires Inv(s, quantum) && c < |s.cores| && CoreStep(s, a, c, quantum).Some?
    requires !CoreStep(s, a, c, quantum).value.crashed
    ensures var t := CoreStep(s, a, c, quantum).value;
            && OneCore(s, t, c)
            && Budget(t.cores[c], t.ran[c], quantum) + (if a.Execute? then 1 else 0)
                 <= Budget(s.cores[c], s.ran[c], quantum)
                    + if a.Check? && t.cores[c].Chosen? then CoreLoop.Limit(quantum) else 0
  {
    hide QueueOk, PointsOk, RunningHeld, SleepOk, QuantumOk, RunnerOk, ShutdownOk, NotifyReady, Preempt, EveryHalted;
    hide Acquire, CoreLoop.Limit;
    BudgetBounds(s, c, quantum);
    if a.Check? {
      AcquireBudget(s, c, quantum);
    }
  }

  lemma RunnerCores(s: Os, quantum: nat)
    requires Inv(s, quantum) && RunnerNext(s).Some?
    ensures var t := RunnerNext(s).value;
            && t.ran == s.ran && |t.cores| == |s.cores|
            && forall c :: 0 <= c < |s.cores| ==>
                 || t.cores[c] == s.cores[c] || t.cores[c] == Wake(s.cores[c])
                 || (s.cores[c].NotStarted? && t.cores[c].Idle?)
  {
    hide QueueOk, PointsOk, RunningHeld, SleepOk, QuantumOk, ShutdownOk, NotifyReady, EveryHalted;
  }

  lemma RunnerBudget(s: Os, quantum: nat)
    requires Inv(s, quantum) && RunnerNext(s).Some?
    ensures |RunnerNext(s).value.ran| == |RunnerNext(s).value.cores|
    ensures Budgets(RunnerNext(s).value, quantum) == Budgets(s, quantum)
  {
    hide QueueOk, PointsOk, RunningHeld, SleepOk, QuantumOk, RunnerOk, ShutdownOk, RunnerNext;
    RunnerCores(s, quantum);
  }

  lemma StepBudget(s: Os, a: Action, quantum: nat)
    requires Inv(s, quantum) && Next(s, a, quantum).Some? && !Next(s, a, quantum).value.crashed
    ensures var t := Next(s, a, quantum).value;
            && |t.ran| == |t.cores|
            && Sum(Budgets(t, quantum)) + (if a.Execute? then 1 else 0)
                 <= Sum(Budgets(s, quantum)) + CoreLoop.Limit(quantum) * |TakenBy(s, a, quantum)|
  {
    hide QueueOk, PointsOk, RunningHeld, SleepOk, QuantumOk, RunnerOk, ShutdownOk, CoreStep, RunnerNext;
    hide Sum, Budget, CoreLoop.Limit;
    if a.RunnerStep? {
      RunnerBudget(s, quantum);
    } else if a.RunnerSpurious? {
      assert Budgets(Next(s, a, quantum).value, quantum) == Budgets(s, quantum);
    } else {
      CoreBudget(s, a, a.c, quantum);
      BudgetsMove(s, Next(s, a, quantum).value, a.c, quantum);
    }
  }

  lemma FetchedBudget(s: Os, a: Action, quantum: nat)
    requires Inv(s, quantum) && a.Execute? && Next(s, a, quantum).Some?
    ensures Sum(Budgets(s, quantum)) >= 1
  {
    hide QueueOk, PointsOk, RunningHeld, SleepOk, QuantumOk, RunnerOk, ShutdownOk, Ran, Sum, Budget;
    var all, c := Budgets(s, quantum), a.c;
    var one := seq(|s.cores|, _ => 0)[c := 1];
    forall d | 0 <= d < |s.cores|
      ensures one[d] <= all[d]
    {
      BudgetBounds(s, d, quantum);
    }
    SumConstant(seq(|s.cores|, _ => 0), 0);
    SumUpdate(seq(|s.cores|, _ => 0), c, 1);
    SumClose(one, all, 0);
  }

  /** An instruction that crashes the machine is its last. */
  lemma CrashIsLast(s: Os, acts: seq<Action>, quantum: nat)
    requires Inv(s, quantum) && acts != [] && Run(s, acts, quantum).Some? && Next(s, acts[0], quantum).value.crashed
    ensures Executions(acts) <= 1 && (Executions(acts) == 1 ==> Sum(Budgets(s, quantum)) >= 1)
  {
    hide QueueOk, PointsOk, RunningHeld, SleepOk, QuantumOk, RunnerOk, ShutdownOk, Shape, CoreStep, Sum;
    StepKeeps(s, acts[0], quantum);
    assert acts[1..] == [];
    if acts[0].Execute? {
      FetchedBudget(s, acts[0], quantum);
    }
  }

  lemma {:induction false} RunBudget(s: Os, acts: seq<Action>, quantum: nat)
    requires Inv(s, quantum) && Run(s, acts, quantum).Some?
    ensures Executions(acts) <= Sum(Budgets(s, quantum)) + CoreLoop.Limit(quantum) * |Taken(s, acts, quantum)|
    decreases |acts|
  {
    hide QueueOk, PointsOk, RunningHeld, SleepOk, QuantumOk, RunnerOk, ShutdownOk, Shape, Next, Sum, Budgets;
    hide CoreLoop.Limit;
    if acts == [] {
      BudgetsBounded(s, quantum);
    } else if Next(s, acts[0], quantum).value.crashed {
      CrashIsLast(s, acts, quantum);
      BudgetsBounded(s, quantum);
    } else {
      var t := Next(s, acts[0], quantum).value;
      StepKeeps(s, acts[0], quantum);
      StepBudget(s, acts[0], quantum);
      RunBudget(t, acts[1..], quantum);
      assert CoreLoop.Limit(quantum) * |Taken(s, acts, quantum)|
          == CoreLoop.Limit(quantum) * |TakenBy(s, acts[0], quantum)|
             + CoreLoop.Limit(quantum) * |Taken(t, acts[1..], quantum)|;
    }
  }

  /** From a moment at which a process is at position k of the queue, and as long as no core has acquired it, all cores
      together execute at most k + |cores| full time slices. */
  lemma StarvationBound(s: Os, acts: seq<Action>, quantum: nat, k: nat)
    requires Inv(s, quantum) && Run(s, acts, quantum).Some? && k < |s.sched.queue|
    requires s.sched.queue[k] !in Taken(s, acts, quantum)
    ensures Executions(acts) <= (k + |s.cores|) * CoreLoop.Limit(quantum)
  {
    hide Inv, Run, Taken, Executions, Budgets, Sum, CoreLoop.Limit;
    BoundedWaiting(s, acts, quantum, k);
    RunBudget(s, acts, quantum);
    BudgetsBounded(s, quantum);
    var l, n := CoreLoop.Limit(quantum), |Taken(s, acts, quantum)|;
    assert l * n <= l * k;
  }
}
