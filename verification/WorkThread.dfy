/** The work thread: any number of posters and one worker around a queue, a mutex and a condition
    variable, as interleaved steps.  A step is what one thread does between taking and giving up
    the mutex; waiting gives the mutex up and parks in one step. */
module WorkThreads {
  datatype Work = Task(id: nat) | ExitSignal

  /** Where the worker is: about to test the exit flag, about to look at the queue, parked on the
      condition variable, woken up (perhaps for nothing), running a piece of work, or gone. */
  datatype Worker = Checking | Fetching | Parked | Woken | Running(work: Work) | Stopped

  /** `posted` and `executed` are the history; `unnotified` are the posters that have pushed their
      work but not yet notified the worker. */
  datatype State = State(
    queue: seq<Work>, worker: Worker, exiting: bool,
    posted: seq<Work>, executed: seq<Work>, unnotified: set<nat>)

  datatype Step =
    | Push(poster: nat, work: Work)
    | Notify(poster: nat)
    | SpuriousWakeup
    | WorkerStep

  predicate Enabled(s: State, step: Step) {
    match step
    case Push(poster, _) => poster !in s.unnotified
    case Notify(poster) => poster in s.unnotified
    case SpuriousWakeup => s.worker.Parked?
    case WorkerStep => !s.worker.Parked? && !s.worker.Stopped?
  }

  /** Takes the front of the queue, or parks when there is none. */
  function Fetch(s: State): State {
    if s.queue == [] then s.(worker := Parked)
    else s.(worker := Running(s.queue[0]), queue := s.queue[1..])
  }

  function Next(s: State, step: Step): State {
    match step
    case Push(poster, work) =>
      s.(queue := s.queue + [work], posted := s.posted + [work], unnotified := s.unnotified + {poster})
    case Notify(poster) =>
      s.(unnotified := s.unnotified - {poster}, worker := if s.worker.Parked? then Woken else s.worker)
    case SpuriousWakeup => s.(worker := Woken)
    case WorkerStep =>
      match s.worker
      case Checking => s.(worker := if s.exiting then Stopped else Fetching)
      case Fetching => Fetch(s)
      case Woken => Fetch(s)
      case Running(work) =>
        s.(worker := Checking, executed := s.executed + [work], exiting := s.exiting || work.ExitSignal?)
      case Parked => s
      case Stopped => s
  }

  const INITIAL := State([], Checking, false, [], [], {})

  function Run(steps: seq<Step>): State {
    if steps == [] then INITIAL else Next(Run(steps[..|steps| - 1]), steps[|steps| - 1])
  }

  /** A schedule in which every step could be taken when its turn came. */
  predicate Schedule(steps: seq<Step>) {
    steps == [] || (Schedule(steps[..|steps| - 1]) && Enabled(Run(steps[..|steps| - 1]), steps[|steps| - 1]))
  }

  // ---------------------------------------------------------------- the invariant

  function InFlight(s: State): seq<Work> {
    if s.worker.Running? then [s.worker.work] else []
  }

  /** What was posted is what was executed, then what is in flight, then what is queued. */
  predicate NothingLost(s: State) {
    s.posted == s.executed + InFlight(s) + s.queue
  }

  /** An exit signal can only be the last thing executed, and the flag says whether it was. */
  predicate ExitIsLast(s: State) {
    && (forall i | 0 <= i < |s.executed| - 1 :: s.executed[i] != ExitSignal)
    && (s.exiting <==> s.executed != [] && s.executed[|s.executed| - 1] == ExitSignal)
    && (s.exiting ==> s.worker.Checking? || s.worker.Stopped?)
    && (s.worker.Stopped? ==> s.exiting)
  }

  /** No wakeup is lost: while the worker sleeps on work, someone is about to wake it. */
  predicate NoLostWakeup(s: State) {
    s.worker.Parked? && s.queue != [] ==> s.unnotified != {}
  }

  predicate Safe(s: State) {
    NothingLost(s) && ExitIsLast(s) && NoLostWakeup(s)
  }

  lemma FetchKeepsOrder(executed: seq<Work>, queue: seq<Work>)
    requires queue != []
    ensures executed + [] + queue == executed + [queue[0]] + queue[1..]
  {
  }

  lemma StepSafe(s: State, step: Step)
    requires Safe(s) && Enabled(s, step)
    ensures Safe(Next(s, step))
  {
    match step
    case Push(poster, work) =>
      assert s.executed + InFlight(s) + (s.queue + [work]) == s.executed + InFlight(s) + s.queue + [work];
    case Notify(_) =>
    case SpuriousWakeup =>
    case WorkerStep =>
      if (s.worker.Fetching? || s.worker.Woken?) && s.queue != [] { FetchKeepsOrder(s.executed, s.queue); }
  }

  /** Under every interleaving of any number of posters with the worker: nothing posted is lost,
      repeated or reordered, nothing runs after an exit signal, and no wakeup is lost. */
  lemma {:induction false} ScheduleSafe(steps: seq<Step>)
    requires Schedule(steps)
    ensures Safe(Run(steps))
  {
    if steps != [] {
      ScheduleSafe(steps[..|steps| - 1]);
      StepSafe(Run(steps[..|steps| - 1]), steps[|steps| - 1]);
    }
  }

  lemma ExecutedFirst(posted: seq<Work>, executed: seq<Work>, rest: seq<Work>)
    requires posted == executed + rest
    ensures executed <= posted && forall i | 0 <= i < |executed| :: posted[i] == executed[i]
  {
  }

  /** Seen from outside: what has run is a prefix of what was posted, cut after its first exit signal
      once the worker is gone. */
  lemma ExecutedIsAPrefix(steps: seq<Step>)
    requires Schedule(steps)
    ensures var s := Run(steps);
            && s.executed <= s.posted
            && (forall i | 0 <= i < |s.executed| - 1 :: s.posted[i] != ExitSignal)
            && (s.worker.Stopped? ==> s.executed != [] && s.posted[|s.executed| - 1] == ExitSignal)
  {
    hide Run, Schedule, InFlight;
    ScheduleSafe(steps);
    var s := Run(steps);
    assert s.executed + InFlight(s) + s.queue == s.executed + (InFlight(s) + s.queue);
    ExecutedFirst(s.posted, s.executed, InFlight(s) + s.queue);
  }

  /** The work of the pushes of a schedule, in order. */
  function PushedIn(steps: seq<Step>): seq<Work> {
    if steps == [] then []
    else
      var last := steps[|steps| - 1];
      PushedIn(steps[..|steps| - 1]) + if last.Push? then [last.work] else []
  }

  /** The history of posts is that of the schedule. */
  lemma {:induction false} PostedIsPushed(steps: seq<Step>)
    ensures Run(steps).posted == PushedIn(steps)
  {
    if steps != [] { PostedIsPushed(steps[..|steps| - 1]); }
  }

  // ---------------------------------------------------------------- progress

  function RunFrom(s: State, steps: seq<Step>): State
    decreases |steps|
  {
    if steps == [] then s else RunFrom(Next(s, steps[0]), steps[1..])
  }

  predicate CanRun(s: State, steps: seq<Step>)
    decreases |steps|
  {
    steps == [] || (Enabled(s, steps[0]) && CanRun(Next(s, steps[0]), steps[1..]))
  }

  lemma RunFromCons(s: State, step: Step, rest: seq<Step>)
    requires Enabled(s, step) && CanRun(Next(s, step), rest)
    ensures CanRun(s, [step] + rest) && RunFrom(s, [step] + rest) == RunFrom(Next(s, step), rest)
  {
    assert ([step] + rest)[1..] == rest;
  }

  /** The worker's own steps and the notifications already owed; no luck and no further post. */
  predicate OwnSteps(steps: seq<Step>) {
    forall step | step in steps :: step.WorkerStep? || step.Notify?
  }

  /** No deadlock: from every reachable state with work in the queue and no exit signal executed or
      in flight, a few steps already due bring the front of the queue to the worker. */
  lemma QueuedWorkIsReached(steps: seq<Step>) returns (way: seq<Step>)
    requires Schedule(steps) && Run(steps).queue != []
    requires !Run(steps).exiting && Run(steps).worker != Running(ExitSignal)
    ensures |way| <= 3 && OwnSteps(way) && CanRun(Run(steps), way)
    ensures RunFrom(Run(steps), way).worker == Running(Run(steps).queue[0])
  {
    ScheduleSafe(steps);
    var s := Run(steps);
    assert NoLostWakeup(s) && !s.worker.Stopped?;
    hide Run, Schedule;
    match s.worker {
      case Fetching => way := [WorkerStep];
      case Woken => way := [WorkerStep];
      case Checking =>
        RunFromCons(s, WorkerStep, [WorkerStep]);
        way := [WorkerStep] + [WorkerStep];
      case Running(_) =>
        RunFromCons(Next(s, WorkerStep), WorkerStep, [WorkerStep]);
        RunFromCons(s, WorkerStep, [WorkerStep] + [WorkerStep]);
        way := [WorkerStep] + ([WorkerStep] + [WorkerStep]);
      case Parked =>
        var poster :| poster in s.unnotified;
        RunFromCons(s, Notify(poster), [WorkerStep]);
        way := [Notify(poster)] + [WorkerStep];
    }
  }

  /** Exit is final: once an exit signal runs or has run, at most two steps of the worker stop it, with
      everything behind the signal still queued. */
  lemma ExitIsReached(steps: seq<Step>) returns (way: seq<Step>)
    requires Schedule(steps)
    requires Run(steps).exiting || Run(steps).worker == Running(ExitSignal)
    ensures |way| <= 2 && (forall step | step in way :: step.WorkerStep?) && CanRun(Run(steps), way)
    ensures RunFrom(Run(steps), way).worker.Stopped? && RunFrom(Run(steps), way).queue == Run(steps).queue
  {
    ScheduleSafe(steps);
    var s := Run(steps);
    hide Run, Schedule;
    if s.worker.Stopped? {
      way := [];
    } else if s.worker.Checking? {
      way := [WorkerStep];
    } else {
      RunFromCons(s, WorkerStep, [WorkerStep]);
      way := [WorkerStep] + [WorkerStep];
    }
  }
}
