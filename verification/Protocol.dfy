/** run() and the cores as one transition system (src/vm/cpu/virtual_cpu_core.cpp coreLoop, src/vm/os/virtual_os.cpp
    run, stop and notifyPossibleShutdown). A step is one critical section of a mutex, one test of a stop flag, or one
    unlocked write that other threads can see; what a core does in between to the process it holds, which nobody else
    touches meanwhile, belongs to the step before it or after it. Both condition variables are split into the test of
    the predicate and the going to sleep, with the mutex held in between, so that a wake-up can be lost wherever the
    code allows it. */
module Protocol {
  import opened Words
  import opened Scheduling
  import Cpu
  import Machine

  type ProcessState = Cpu.ProcessState
  type Outcome = Machine.Outcome

  /** Where a core's thread is. */
  datatype CorePoint =
    | NotStarted
    | Idle                            // loop head with no process: about to test the stop flag
    | Acquiring                       // it was not set; about to enter acquireProcess
    | Deciding                        // in acquireProcess: nothing to do, mutex held, about to sleep
    | Asleep(notified: bool)          // waiting on the scheduler's condition variable
    | GotNull                         // acquireProcess returned no process; about to test the stop flag
    | Announcing                      // it was not set; about to enter onCoreIdle
    | Holding(p: nat)                 // loop head with a process: about to test the stop flag
    | Chosen(p: nat)                  // it was not set, or the process has just been acquired
    | Fetched(p: nat)                 // the code word has been read
    | Executed(p: nat, o: Outcome)    // executeInstruction has returned
    | Marked(p: nat)                  // the process was set Halted; its release is pending
    | CallbackDue                     // notifyPossibleShutdown is pending
    | Exited

  /** Where the thread that called run() is. */
  datatype RunnerPoint =
    | Begin
    | Launch(i: nat)                  // about to start core i
    | Test                            // about to evaluate allHalted under the shutdown mutex
    | AboutToSleep                    // it was false; the shutdown mutex is still held
    | Sleeping(notified: bool)
    | StopFlag | StopNotify           // stop(): clear running_, then notify_all, neither under the mutex
    | StopCore(i: nat)
    | Join
    | Done

  datatype Os = Os(
    sched: Sched,
    halted: seq<bool>,                // CpuContext::halted_ of each process
    cores: seq<CorePoint>,
    stopRequested: seq<bool>,
    ran: seq<nat>,                    // instructions each core has executed since it acquired its process
    mutex: Option<nat>,               // the core that holds the scheduler mutex across its decision to sleep
    running: bool,                    // the scheduler's running_
    runner: RunnerPoint,
    crashed: bool)                    // an exception left a thread, or an instruction left the model
  {
    function At(c: nat, pt: CorePoint): Os
      requires c < |cores|
    {
      this.(cores := cores[c := pt])
    }
  }

  datatype Action =
    | Loop(c: nat) | Check(c: nat) | Sleep(c: nat) | SpuriousWake(c: nat) | Retry(c: nat) | Announce(c: nat)
    | Fetch(c: nat) | FetchFault(c: nat) | Execute(c: nat, o: Outcome) | Finish(c: nat)
    | Release(c: nat) | Callback(c: nat)
    | RunnerStep | RunnerSpurious

  function Wake(pt: CorePoint): CorePoint {
    if pt.Asleep? then Asleep(true) else pt
  }

  /** notify_all on the scheduler's condition variable. */
  function WakeAll(cores: seq<CorePoint>): (r: seq<CorePoint>)
    ensures |r| == |cores| && forall i :: 0 <= i < |cores| ==> r[i] == Wake(cores[i])
  {
    seq(|cores|, i requires 0 <= i < |cores| => Wake(cores[i]))
  }

  /** A scheduler critical section that ends with notify_all, after which core c is at pt. */
  function Notified(s: Os, c: nat, pt: CorePoint, sched: Sched): Os
    requires c < |s.cores|
  {
    s.(sched := sched, cores := WakeAll(s.cores)[c := pt])
  }

  function Held(pt: CorePoint): Option<nat> {
    match pt
    case Holding(p) => Some(p)
    case Chosen(p) => Some(p)
    case Fetched(p) => Some(p)
    case Executed(p, _) => Some(p)
    case Marked(p) => Some(p)
    case _ => None
  }

  ghost predicate Shape(s: Os) {
    && s.sched.Valid() && |s.halted| == |s.sched.states|
    && |s.stopRequested| == |s.cores| == |s.ran|
    && (forall c :: 0 <= c < |s.cores| && Held(s.cores[c]).Some? ==> Held(s.cores[c]).value < |s.sched.states|)
  }

  /** acquireProcess with the mutex free: the predicate of the wait, then the pick. */
  function Acquire(s: Os, c: nat, quantum: nat): Os
    requires Shape(s) && c < |s.cores|
  {
    if !s.running then s.At(c, GotNull)
    else if s.sched.queue == [] then s.At(c, Deciding).(mutex := Some(c))
    else match Pick(s.sched, quantum)
      case (sched, None) => s.At(c, GotNull).(sched := sched)
      case (sched, Some(p)) => s.At(c, Chosen(p)).(sched := sched, ran := s.ran[c := 0])
  }

  /** releaseProcess(p, preempt). */
  function Released(s: Os, c: nat, p: nat, preempt: bool, pt: CorePoint): Os
    requires Shape(s) && c < |s.cores| && p < |s.sched.states|
  {
    var state := s.sched.states[p];
    if preempt && state != Cpu.Halted then Notified(s, c, pt, Preempt(s.sched, p))
    else if state != Cpu.Halted then
      Notified(s, c, pt, NotifyReady(s.sched.(states := s.sched.states[p := Cpu.Ready])))
    else Notified(s, c, pt, NotifyReady(s.sched))
  }

  /** After executeInstruction returned o for process p. */
  function Finished(s: Os, c: nat, p: nat, o: Outcome): Option<Os>
    requires Shape(s) && c < |s.cores| && p < |s.sched.states|
  {
    if o.Halt? || s.halted[p] || o.Error? then
      Some(s.At(c, Marked(p)).(sched := s.sched.(states := s.sched.states[p := Cpu.Halted]),
                               halted := s.halted[p := o.Error? || s.halted[p]]))
    else if o.Yield? || s.sched.slices[p] == 0 then
      if s.mutex.Some? then None else Some(Released(s, c, p, true, Idle))
    else Some(s.At(c, Holding(p)))
  }

  function Ran(s: Os, c: nat, p: nat, o: Outcome): Os
    requires Shape(s) && c < |s.cores| && p < |s.sched.states|
  {
    if o.Throw? || o.External? then s.(crashed := true)
    else s.At(c, Executed(p, o)).(
           sched := s.sched.(slices := s.sched.slices[p := Machine.SliceAfter(o, s.sched.slices[p])],
                             states := if o == Machine.Halt(true) then s.sched.states[p := Cpu.Halted]
                                       else s.sched.states),
           halted := s.halted[p := s.halted[p] || o.Halt?],
           ran := s.ran[c := s.ran[c] + 1])
  }

  function CoreStep(s: Os, a: Action, c: nat, quantum: nat): Option<Os>
    requires Shape(s) && c < |s.cores|
  {
    match (a, s.cores[c])
    case (Loop(_), Idle) => Some(s.At(c, if s.stopRequested[c] then Exited else Acquiring))
    case (Loop(_), Holding(p)) => Some(s.At(c, if s.stopRequested[c] then Exited else Chosen(p)))
    case (Check(_), Acquiring) => if s.mutex.Some? then None else Some(Acquire(s, c, quantum))
    case (Check(_), Asleep(notified)) => if !notified || s.mutex.Some? then None else Some(Acquire(s, c, quantum))
    case (Sleep(_), Deciding) => Some(s.At(c, Asleep(false)).(mutex := None))
    case (SpuriousWake(_), Asleep(_)) => Some(s.At(c, Asleep(true)))
    case (Retry(_), GotNull) => Some(s.At(c, if s.stopRequested[c] then Exited else Announcing))
    case (Announce(_), Announcing) =>
      if s.mutex.Some? then None else Some(Notified(s, c, Idle, NotifyReady(s.sched)))
    case (Fetch(_), Chosen(p)) =>
      if s.halted[p] || s.sched.states[p] == Cpu.Halted then
        if s.mutex.Some? then None else Some(Released(s, c, p, false, Idle))
      else Some(s.At(c, Fetched(p)))
    case (FetchFault(_), Chosen(p)) =>
      if s.halted[p] || s.sched.states[p] == Cpu.Halted then None else Some(s.(crashed := true))
    case (Execute(_, o), Fetched(p)) => Some(Ran(s, c, p, o))
    case (Finish(_), Executed(p, o)) => Finished(s, c, p, o)
    case (Release(_), Marked(p)) => if s.mutex.Some? then None else Some(Released(s, c, p, false, CallbackDue))
    case (Callback(_), CallbackDue) =>
      if s.runner == AboutToSleep then None
      else if EveryHalted(s.sched.states) && s.runner.Sleeping? then Some(s.At(c, Idle).(runner := Sleeping(true)))
      else Some(s.At(c, Idle))
    case _ => None
  }

  function RunnerNext(s: Os): Option<Os>
    requires Shape(s)
  {
    match s.runner
    case Begin =>
      if s.mutex.Some? then None
      else Some(s.(sched := NotifyReady(s.sched), cores := WakeAll(s.cores), runner := Launch(0)))
    case Launch(i) =>
      if i < |s.cores| then Some(s.At(i, Idle).(runner := Launch(i + 1))) else Some(s.(runner := Test))
    case Test => Some(s.(runner := if EveryHalted(s.sched.states) then StopFlag else AboutToSleep))
    case AboutToSleep => Some(s.(runner := Sleeping(false)))
    case Sleeping(notified) => if notified then Some(s.(runner := Test)) else None
    case StopFlag => Some(s.(running := false, runner := StopNotify))
    case StopNotify => Some(s.(cores := WakeAll(s.cores), runner := StopCore(0)))
    case StopCore(i) =>
      if i < |s.cores| then Some(s.(stopRequested := s.stopRequested[i := true], runner := StopCore(i + 1)))
      else Some(s.(runner := Join))
    case Join => if forall c :: 0 <= c < |s.cores| ==> s.cores[c] == Exited then Some(s.(runner := Done)) else None
    case Done => None
  }

  /** The state after an action, or None where the action is not possible. */
  function Next(s: Os, a: Action, quantum: nat): Option<Os>
    requires Shape(s)
  {
    if s.crashed then None
    else match a
      case RunnerStep => RunnerNext(s)
      case RunnerSpurious => if s.runner.Sleeping? then Some(s.(runner := Sleeping(true))) else None
      case _ => if a.c < |s.cores| then CoreStep(s, a, a.c, quantum) else None
  }
}
