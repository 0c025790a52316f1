/** What a core does with a process it has acquired (src/vm/cpu/virtual_cpu_core.cpp coreLoop and releaseProcess), as
    the imperative loop it is, until it lets the process go. How several such loops interleave is the matter of
    Protocol. */
module CoreLoop {
  import opened Words
  import opened Memory
  import opened Segments
  import opened Machine
  import opened Cpu
  import opened Scheduling
  import Protocol

  /** The scheduler after releaseProcess. */
  function AfterRelease(s: Sched, p: nat, preempt: bool): Sched
    requires p < |s.states|
  {
    if preempt && s.states[p] != Halted then Preempt(s, p)
    else if s.states[p] != Halted then NotifyReady(s.(states := s.states[p := Ready]))
    else NotifyReady(s)
  }

  /** It is the scheduler's part of the protocol's step. */
  lemma ReleaseAgrees(s: Protocol.Os, c: nat, p: nat, preempt: bool, pt: Protocol.CorePoint)
    requires Protocol.Shape(s) && c < |s.cores| && p < |s.sched.states|
    ensures Protocol.Released(s, c, p, preempt, pt) == Protocol.Notified(s, c, pt, AfterRelease(s.sched, p, preempt))
  {
  }

  predicate Stays(o: Outcome) { o.Continue? || o.Jump? }

  predicate Ended(o: Outcome) { o.Halt? || o.Error? }

  predicate Thrown(o: Outcome) { o.Throw? || o.External? }

  /** The longest a hold can be: a zero quantum still lets one instruction through. */
  function Limit(slice: nat): nat { if slice == 0 then 1 else slice }

  /** The scheduler's view with one process's state and slice replaced. */
  function Touched(s: Sched, p: nat, state: ProcessState, slice: nat): Sched
    requires p < |s.states| == |s.slices|
  {
    s.(states := s.states[p := state], slices := s.slices[p := slice])
  }

  /** The scheduler's view after the process has been let go. */
  function LetGo(s: Sched, p: nat, slice: nat, o: Outcome): Sched
    requires p < |s.states| == |s.slices|
  {
    AfterRelease(Touched(s, p, if Ended(o) then Halted else Running, slice), p, !Ended(o))
  }

  lemma TouchedTwice(s: Sched, p: nat, a: ProcessState, x: nat, b: ProcessState, y: nat)
    requires p < |s.states| == |s.slices|
    ensures Touched(Touched(s, p, a, x), p, b, y) == Touched(s, p, b, y)
  {
  }

  lemma LetGoTouched(s: Sched, p: nat, state: ProcessState, x: nat, slice: nat, o: Outcome)
    requires p < |s.states| == |s.slices|
    ensures LetGo(Touched(s, p, state, x), p, slice, o) == LetGo(s, p, slice, o)
  {
    TouchedTwice(s, p, state, x, if Ended(o) then Halted else Running, slice);
    hide AfterRelease;
  }

  lemma TouchedSame(s: Sched, p: nat)
    requires p < |s.states| == |s.slices|
    ensures Touched(s, p, s.states[p], s.slices[p]) == s
  {
  }

  /** The first n instructions of a solo run from s, none of which makes a core let go, lead to t and print `printed`.
      */
  ghost predicate Going(s: State, l: Layout, n: nat, t: State, printed: seq<Word>) {
    t == Solo(s, l, n) && printed == SoloPrinted(s, l, n) && forall j :: 0 <= j < n ==> Stays(SoloOutcome(s, l, j))
  }

  /** Likewise, but for the last one, which ends with o. */
  ghost predicate Gone(s: State, l: Layout, n: nat, t: State, printed: seq<Word>, o: Outcome) {
    && n >= 1 && t == Solo(s, l, n) && printed == SoloPrinted(s, l, n)
    && (forall j :: 0 <= j < n - 1 ==> Stays(SoloOutcome(s, l, j))) && o == SoloOutcome(s, l, n - 1)
  }

  lemma GoingStart(s: State, l: Layout)
    ensures Going(s, l, 0, s, [])
  {
  }

  lemma GoingStep(s: State, l: Layout, n: nat, t: State, printed: seq<Word>)
    requires Going(s, l, n, t, printed)
    ensures var e := Step(t, l);
            && Gone(s, l, n + 1, e.state, printed + e.printed, e.outcome)
            && (Stays(e.outcome) ==> Going(s, l, n + 1, e.state, printed + e.printed))
  {
    hide Step;
  }

  /** A process of the table as the scheduler sees it. */
  lemma Listed(scheduler: PreemptiveScheduler, p: ProcessControlBlock)
    requires scheduler.Valid() && p in scheduler.table.processes
    ensures scheduler.Value.requires()
    ensures p.id >= 1 && p.id - 1 < |scheduler.Value().states| == |scheduler.Value().slices|
    ensures scheduler.Value().states[p.id - 1] == p.state
                && scheduler.Value().slices[p.id - 1] == p.context.timeSliceLeft
  {
  }

  class VirtualCpuCore {
    const scheduler: PreemptiveScheduler

    constructor (scheduler: PreemptiveScheduler)
      ensures this.scheduler == scheduler
    {
      this.scheduler := scheduler;
    }

    method ReleaseProcess(p: ProcessControlBlock, preempt: bool)
      requires scheduler.Valid() && p in scheduler.table.processes
      modifies scheduler`readyQueue, p`state
      ensures scheduler.Valid() && p.id >= 1 && p.id - 1 < |old(scheduler.Value()).states|
      ensures scheduler.Value() == AfterRelease(old(scheduler.Value()), p.id - 1, preempt)
      ensures old(p.state) == Halted ==> p.state == Halted
    {
      assert scheduler.Value().states[p.id - 1] == p.state;
      if preempt && p.state != Halted {
        scheduler.OnPreempt(p);
      } else if p.state != Halted {
        p.state := Ready;
        assert scheduler.Value() == old(scheduler.Value()).(states := old(scheduler.Value()).states[p.id - 1 := Ready]);
        scheduler.NotifyProcessReady();
      } else {
        scheduler.NotifyProcessReady();
      }
    }

    /** executeInstruction, with its effect on what the scheduler sees. */
    method Execute(p: ProcessControlBlock) returns (o: Outcome, printed: seq<Word>)
      requires scheduler.Valid() && p in scheduler.table.processes
      modifies p`state, p.context, p.context.registers, p.memory.physical.memory
      ensures scheduler.Valid() && p.id >= 1 && p.id - 1 < |old(scheduler.Value()).states|
      ensures Effect(p.Machine(), o, printed) == Step(old(p.Machine()), p.memory.layout)
      ensures p.state == if o == Machine.Halt(true) then Halted else old(p.state)
      ensures p.context.halted == (old(p.context.halted) || o.Halt?)
      ensures p.context.shouldYield == (old(p.context.shouldYield) || o == Yield)
      ensures p.context.timeSliceLeft == SliceAfter(o, old(p.context.timeSliceLeft))
      ensures scheduler.Value()
           == Touched(old(scheduler.Value()), p.id - 1, p.state, p.context.timeSliceLeft)
    {
      hide Step;
      assert scheduler.Value().states[p.id - 1] == p.state;
      o, printed := ExecuteInstruction(p);
      ghost var t := Touched(old(scheduler.Value()), p.id - 1, p.state, p.context.timeSliceLeft);
      assert scheduler.Value().states == t.states;
      assert scheduler.Value().slices == t.slices;
    }

    /** The branches after executeInstruction: does the core keep the process, and is the halt callback called? */
    method Settle(p: ProcessControlBlock, o: Outcome) returns (kept: bool, callback: bool)
      requires scheduler.Valid() && p in scheduler.table.processes && !Thrown(o)
      requires p.state == if o == Machine.Halt(true) then Halted else Running
      requires p.context.halted == o.Halt? && p.context.shouldYield == (o == Yield)
      modifies p`state, p.context`halted, p.context`shouldYield, scheduler`readyQueue
      ensures scheduler.Valid() && p.id >= 1 && p.id - 1 < |old(scheduler.Value()).states|
      ensures kept <==> Stays(o) && p.context.timeSliceLeft > 0
      ensures kept ==> p.state == Running && !p.context.halted && !p.context.shouldYield
                       && scheduler.Value() == old(scheduler.Value())
      ensures callback <==> Ended(o)
      ensures Ended(o) ==> p.state == Halted && p.context.halted
      ensures !kept ==> scheduler.Value() == LetGo(old(scheduler.Value()), p.id - 1, p.context.timeSliceLeft, o)
    {
      hide AfterRelease, Touched, PreemptiveScheduler.Value, PreemptiveScheduler.Valid;
      Listed(scheduler, p);
      TouchedSame(scheduler.Value(), p.id - 1);
      kept, callback := false, false;
      if o.Halt? || p.context.halted || o.Error? {
        MarkHalted(p);
        ReleaseProcess(p, false);
        callback := true;
      } else if o.Yield? || p.context.shouldYield {
        ClearYield(p);
        ReleaseProcess(p, true);
      } else if p.context.timeSliceLeft == 0 {
        ReleaseProcess(p, true);
      } else {
        kept := true;
      }
    }

    method MarkHalted(p: ProcessControlBlock)
      requires scheduler.Valid() && p in scheduler.table.processes
      modifies p`state, p.context`halted
      ensures scheduler.Valid() && p.id >= 1 && p.id - 1 < |old(scheduler.Value()).states|
      ensures p.state == Halted && p.context.halted
      ensures scheduler.Value() == Touched(old(scheduler.Value()), p.id - 1, Halted, p.context.timeSliceLeft)
    {
      p.state := Halted;
      p.context.halted := true;
      ghost var t := Touched(old(scheduler.Value()), p.id - 1, Halted, p.context.timeSliceLeft);
      assert scheduler.Value().states == t.states;
      assert scheduler.Value().slices == t.slices;
    }

    method ClearYield(p: ProcessControlBlock)
      requires scheduler.Valid() && p in scheduler.table.processes
      modifies p.context`shouldYield
      ensures scheduler.Valid() && scheduler.Value() == old(scheduler.Value()) && !p.context.shouldYield
    {
      p.context.shouldYield := false;
      assert scheduler.Value().slices == old(scheduler.Value()).slices;
    }

    /** One round of the loop. */
    method Turn(p: ProcessControlBlock) returns (o: Outcome, printed: seq<Word>, kept: bool, callback: bool)
      requires scheduler.Valid() && p in scheduler.table.processes && Held(p)
      modifies p`state, p.context, p.context.registers, p.memory.physical.memory, scheduler`readyQueue
      ensures scheduler.Valid() && p.id >= 1 && p.id - 1 < |old(scheduler.Value()).states|
      ensures Effect(p.Machine(), o, printed) == Step(old(p.Machine()), p.memory.layout)
      ensures p.context.timeSliceLeft == SliceAfter(o, old(p.context.timeSliceLeft))
      ensures kept <==> Stays(o) && p.context.timeSliceLeft > 0
      ensures callback <==> Ended(o)
      ensures Ended(o) ==> p.state == Halted && p.context.halted
      ensures kept ==> Held(p)
                       && scheduler.Value() == Touched(old(scheduler.Value()), p.id - 1,
                                           Running, p.context.timeSliceLeft)
      ensures !kept && !Thrown(o) ==>
                scheduler.Value() == LetGo(old(scheduler.Value()), p.id - 1, p.context.timeSliceLeft, o)
    {
      hide Step, AfterRelease, Touched, LetGo, PreemptiveScheduler.Value, PreemptiveScheduler.Valid;
      Listed(scheduler, p);
      ghost var v := scheduler.Value();
      o, printed := Execute(p);
      kept, callback := false, false;
      if Thrown(o) {
        return;
      }
      Listed(scheduler, p);
      LetGoTouched(v, p.id - 1, p.state, p.context.timeSliceLeft, p.context.timeSliceLeft, o);
      kept, callback := Settle(p, o);
    }

    predicate Held(p: ProcessControlBlock)
      reads p, p.context
    {
      p.state == Running && !p.context.halted && !p.context.shouldYield
    }

    /** From acquiring a process to letting it go, when no stop is requested: it executes exactly the solo run's next n
        instructions, and stops at the first that ends the process, yields or throws, or when the slice is used up. */
    method Hold(p: ProcessControlBlock) returns (o: Outcome, printed: seq<Word>, callback: bool, n: nat)
      requires scheduler.Valid() && p in scheduler.table.processes && Held(p)
      modifies p`state, p.context, p.context.registers, p.memory.physical.memory, scheduler`readyQueue
      ensures scheduler.Valid() && p.id >= 1 && p.id - 1 < |old(scheduler.Value()).states|
      ensures Gone(old(p.Machine()), p.memory.layout, n, p.Machine(), printed, o)
      ensures 1 <= n <= Limit(old(p.context.timeSliceLeft)) && (Stays(o) ==> n == Limit(old(p.context.timeSliceLeft)))
      ensures p.context.timeSliceLeft == SliceAfter(o, old(p.context.timeSliceLeft) - (n - 1))
      ensures callback <==> Ended(o)
      ensures Ended(o) ==> p.state == Halted && p.context.halted
      ensures !Thrown(o) ==>
                scheduler.Value() == LetGo(old(scheduler.Value()), p.id - 1, p.context.timeSliceLeft, o)
    {
      hide Step, Going, Gone, AfterRelease, Touched, LetGo, PreemptiveScheduler.Value;
      ghost var s, l, v := p.Machine(), p.memory.layout, scheduler.Value();
      Listed(scheduler, p);
      TouchedSame(v, p.id - 1);
      GoingStart(s, l);
      printed, n := [], 0;
      while true
        invariant scheduler.Valid() && p.id >= 1 && p.id - 1 < |v.states|
        invariant n + p.context.timeSliceLeft == old(p.context.timeSliceLeft) && (n > 0 ==> p.context.timeSliceLeft > 0)
        invariant Held(p) && Going(s, l, n, p.Machine(), printed)
        invariant scheduler.Value() == Touched(v, p.id - 1, Running, p.context.timeSliceLeft)
        decreases p.context.timeSliceLeft
      {
        ghost var slice := p.context.timeSliceLeft;
        GoingStep(s, l, n, p.Machine(), printed);
        var words, kept;
        o, words, kept, callback := Turn(p);
        printed, n := printed + words, n + 1;
        TouchedTwice(v, p.id - 1, Running, slice, Running, p.context.timeSliceLeft);
        LetGoTouched(v, p.id - 1, Running, slice, p.context.timeSliceLeft, o);
        if !kept {
          return;
        }
      }
    }
  }
}
