/**
 * How the controller, the scan thread and the processing worker run one wafer after another:
 * src/machine/machine_runtime.cpp, src/hw/scan_thread.cpp and src/core/controller.cpp as a step
 * system.  Commands and notifications reach the controller in any order; each thread has at most
 * one notification outstanding, because it waits for the answer.
 */
module RunProtocol {
  import opened Common
  import opened ProcessMachine

  const JOBS_CAPACITY := 8

  /** A sample block; `run` numbers the accepted Starts and `complete` tells a whole line. */
  datatype Block = Block(run: nat, line: nat, complete: bool)

  datatype Job = ProcessWafer(run: nat) | DiscardSamples(run: nat)

  datatype ControllerPc = Free | Joining

  datatype ScanPc =
    | NoThread
    | AtLine(line: nat)
    | Pushing(line: nat, aborted: bool)
    | Reporting
    | PostingProcess
    | PostingDiscard
    | Finished

  datatype WorkerPc =
    | WaitJob
    | Collecting(run: nat, lines: seq<Block>)
    | Checking(run: nat)
    | AwaitResult(run: nat)
    | Rereading(run: nat)
    | Discarding(run: nat)
    | AwaitStageStopped(run: nat)
    | Writing

  /** What has happened: blocks pushed and taken, lines handed to the analysis, blocks discarded. */
  datatype Past = Past(pushed: seq<Block>, taken: seq<Block>,
                       processed: seq<(nat, seq<Block>)>, discarded: seq<(nat, Block)>)

  datatype State = State(
    fsm: Fsm, ctl: ControllerPc, run: nat, abortFlag: bool, scan: ScanPc, scanRun: nat,
    queue: seq<Block>, jobs: seq<Job>, worker: WorkerPc, past: Past)

  function Init(): State {
    State(Fsm(Idle, false), Free, 0, false, NoThread, 0, [], [], WaitJob, Past([], [], [], []))
  }

  datatype Step =
    | StartCommand
    | StopCommand
    | AbortCommand
    | ClearCommand
    | JoinReturns
    | ScanSeesAbort
    | ScanEndsLine
    | ScanPushes
    | ScanReports
    | ScanPosts
    | WorkerTakesJob
    | WorkerCollects
    | WorkerChecks
    | WorkerDelivers(raised: bool)
    | WorkerRereads
    | WorkerDiscards
    | WorkerStopsStage
    | WorkerWrites

  predicate IsCommand(step: Step) {
    step.StartCommand? || step.StopCommand? || step.AbortCommand? || step.ClearCommand?
  }

  predicate IsScanStep(step: Step) {
    step.ScanSeesAbort? || step.ScanEndsLine? || step.ScanPushes? || step.ScanReports? || step.ScanPosts?
  }

  /** Where the scan loop stands before line `line` of n. */
  function BeforeLine(n: nat, line: nat): ScanPc {
    if line < n then AtLine(line) else Reporting
  }

  /**
   * A transition on the controller thread.  An alarm is active exactly in Alarm (ControllerModel),
   * so the alarm guard of Start is open whenever the machine is Idle.
   */
  function Fire(s: State, trigger: Trigger): State {
    s.(fsm := Transition(s.fsm, trigger, OPEN).0)
  }

  predicate Accepts(s: State, trigger: Trigger) {
    Transition(s.fsm, trigger, OPEN).1.Ok?
  }

  function AfterReread(s: State, run: nat): WorkerPc {
    if s.fsm.state == Stopping then AwaitStageStopped(run) else Writing
  }

  /** The controller thread: commands, and the join inside the start of a scan. */
  function ControllerStep(n: nat, s: State, step: Step): State {
    match step
    case StartCommand =>
      if s.ctl.Free? && Accepts(s, Start) then
        Fire(s, Start).(ctl := Joining, run := s.run + 1)
      else s
    case StopCommand => if s.ctl.Free? then Fire(s, Stop) else s
    case AbortCommand =>
      if s.ctl.Free? && Accepts(s, Abort) then Fire(s, Abort).(abortFlag := true) else s
    case ClearCommand => if s.ctl.Free? then Fire(s, ClearAlarm) else s
    case JoinReturns =>
      if s.ctl.Joining? && (s.scan.NoThread? || s.scan.Finished?) then
        s.(ctl := Free, abortFlag := false, scan := BeforeLine(n, 0), scanRun := s.run)
      else s
    case _ => s
  }

  /** The scan thread; a full queue makes a push wait. */
  function ScanStep(n: nat, s: State, step: Step): State {
    match step
    case ScanSeesAbort =>
      if s.scan.AtLine? && s.abortFlag then s.(scan := Pushing(s.scan.line, true)) else s
    case ScanEndsLine => if s.scan.AtLine? then s.(scan := Pushing(s.scan.line, false)) else s
    case ScanPushes =>
      if s.scan.Pushing? && |s.queue| < n + 1 then
        var block := Block(s.scanRun, s.scan.line, !s.scan.aborted);
        s.(queue := s.queue + [block], past := s.past.(pushed := s.past.pushed + [block]),
           scan := if s.scan.aborted then PostingDiscard else BeforeLine(n, s.scan.line + 1))
      else s
    case ScanReports =>
      if s.scan.Reporting? && s.ctl.Free? then Fire(s, LinesComplete).(scan := PostingProcess) else s
    case ScanPosts =>
      if |s.jobs| >= JOBS_CAPACITY then s
      else if s.scan.PostingProcess? then
        s.(jobs := s.jobs + [ProcessWafer(s.scanRun)], scan := Finished)
      else if s.scan.PostingDiscard? then
        s.(jobs := s.jobs + [DiscardSamples(s.scanRun)], scan := Finished)
      else s
    case _ => s
  }

  /** The processing worker; after the delivery of a result it reads the state again. */
  function WorkerStep(n: nat, s: State, step: Step): State {
    match step
    case WorkerTakesJob =>
      if s.worker.WaitJob? && s.jobs != [] then
        s.(jobs := s.jobs[1..],
           worker := match s.jobs[0]
                     case ProcessWafer(run) => Collecting(run, [])
                     case DiscardSamples(run) => Discarding(run))
      else s
    case WorkerCollects =>
      if !s.worker.Collecting? then s
      else if |s.worker.lines| == n then
        s.(worker := Checking(s.worker.run),
           past := s.past.(processed := s.past.processed + [(s.worker.run, s.worker.lines)]))
      else if s.queue == [] then s
      else
        s.(queue := s.queue[1..], past := s.past.(taken := s.past.taken + [s.queue[0]]),
           worker := Collecting(s.worker.run, s.worker.lines + [s.queue[0]]))
    case WorkerChecks =>
      if !s.worker.Checking? then s
      else if s.fsm.state == Stopping then s.(worker := AwaitStageStopped(s.worker.run))
      else s.(worker := AwaitResult(s.worker.run))
    case WorkerDelivers(raised) =>
      if s.worker.AwaitResult? && s.ctl.Free? then
        Fire(s, if raised then Fault else ResultReady).(worker := Rereading(s.worker.run))
      else s
    case WorkerRereads =>
      if s.worker.Rereading? then s.(worker := AfterReread(s, s.worker.run)) else s
    case WorkerDiscards =>
      if !s.worker.Discarding? then s
      else if s.queue == [] then s.(worker := AwaitStageStopped(s.worker.run))
      else
        s.(queue := s.queue[1..],
           past := s.past.(taken := s.past.taken + [s.queue[0]],
                           discarded := s.past.discarded + [(s.worker.run, s.queue[0])]))
    case WorkerStopsStage =>
      if s.worker.AwaitStageStopped? && s.ctl.Free? then Fire(s, StageStopped).(worker := WaitJob)
      else s
    case WorkerWrites => if s.worker.Writing? then s.(worker := WaitJob) else s
    case _ => s
  }

  /** One step of n-line scans; a step that cannot be taken leaves the state as it is. */
  function Next(n: nat, s: State, step: Step): State {
    if IsCommand(step) || step.JoinReturns? then ControllerStep(n, s, step)
    else if IsScanStep(step) then ScanStep(n, s, step)
    else WorkerStep(n, s, step)
  }

  function RunFrom(n: nat, s: State, steps: seq<Step>): State
    decreases |steps|
  {
    if steps == [] then s else RunFrom(n, Next(n, s, steps[0]), steps[1..])
  }

  // ---- the invariant ----------------------------------------------------------------------------

  /** The first k lines of a run, complete and in order. */
  function Lines(run: nat, k: nat): seq<Block> {
    seq(k, i requires 0 <= i => Block(run, i, true))
  }

  predicate AllOf(run: nat, blocks: seq<Block>) {
    forall i :: 0 <= i < |blocks| ==> blocks[i].run == run
  }

  predicate Quiet(state: ProcessState) {
    state == Idle || state == Alarm
  }

  predicate Busy(state: ProcessState) {
    state == Processing || state == Stopping
  }

  predicate ScanOver(scan: ScanPc) {
    scan.NoThread? || scan.Finished?
  }

  predicate ScanActive(scan: ScanPc) {
    scan.AtLine? || scan.Pushing? || scan.Reporting?
  }

  /** The worker has nothing to do with runs from `run` on; it may still re-read for an older one. */
  predicate Aside(worker: WorkerPc, run: nat) {
    worker.WaitJob? || worker.Writing? || (worker.Rereading? && worker.run < run)
  }

  predicate AtRest(s: State) {
    ScanOver(s.scan) && s.queue == [] && s.jobs == [] && Aside(s.worker, s.run + 1)
  }

  function LinesDone(n: nat, scan: ScanPc): nat {
    if scan.AtLine? || scan.Pushing? then scan.line else n
  }

  predicate InScan(n: nat, s: State) {
    && ScanActive(s.scan) && s.scanRun == s.run && s.jobs == [] && Aside(s.worker, s.run)
    && (s.fsm.state == Scanning || s.fsm.state == Stopping)
    && (s.abortFlag <==> s.fsm.state == Stopping)
    && (s.scan.AtLine? || s.scan.Pushing? ==> s.scan.line < n)
    && (s.scan.Pushing? && s.scan.aborted ==> s.fsm.state == Stopping)
    && s.queue == Lines(s.run, LinesDone(n, s.scan))
  }

  /** The scan has ended and its job is being posted or waits to be taken. */
  predicate InHandOver(n: nat, s: State) {
    && s.scanRun == s.run && Aside(s.worker, s.run)
    && ((s.scan.PostingProcess? && s.jobs == []) || (s.scan.Finished? && s.jobs == [ProcessWafer(s.run)]))
    && Busy(s.fsm.state) && s.queue == Lines(s.run, n)
  }

  predicate InDiscardHandOver(n: nat, s: State) {
    && s.scanRun == s.run && Aside(s.worker, s.run)
    && ((s.scan.PostingDiscard? && s.jobs == []) || (s.scan.Finished? && s.jobs == [DiscardSamples(s.run)]))
    && s.fsm.state == Stopping && AllOf(s.run, s.queue)
  }

  predicate InWork(n: nat, s: State) {
    && s.scan.Finished? && s.jobs == []
    && match s.worker
       case Collecting(run, lines) =>
         run == s.run && lines + s.queue == Lines(run, n) && Busy(s.fsm.state)
       case Checking(run) => run == s.run && s.queue == [] && Busy(s.fsm.state)
       case AwaitResult(run) => run == s.run && s.queue == [] && Busy(s.fsm.state)
       case Rereading(run) => run == s.run && s.queue == [] && s.fsm.state == Stopping
       case Discarding(run) => run == s.run && AllOf(run, s.queue) && s.fsm.state == Stopping
       case AwaitStageStopped(run) => run == s.run && s.queue == [] && s.fsm.state == Stopping
       case _ => false
  }

  /** The phase of the current run fits the machine's state. */
  predicate Phase(n: nat, s: State) {
    if s.ctl.Joining? then s.fsm.state == Scanning && AtRest(s) && Aside(s.worker, s.run)
    else if Quiet(s.fsm.state) then AtRest(s)
    else InScan(n, s) || InHandOver(n, s) || InDiscardHandOver(n, s) || InWork(n, s)
  }

  ghost predicate History(n: nat, s: State) {
    && s.past.pushed == s.past.taken + s.queue
    && (forall i :: 0 <= i < |s.past.processed| ==> s.past.processed[i].1 == Lines(s.past.processed[i].0, n))
    && (forall i :: 0 < i < |s.past.processed| ==> s.past.processed[i - 1].0 < s.past.processed[i].0)
    && (s.past.processed != [] ==> LastProcessed(s) <= s.run)
    && (s.past.processed != [] && NotYetProcessed(s) ==> LastProcessed(s) < s.run)
    && (forall i :: 0 <= i < |s.past.discarded| ==> s.past.discarded[i].1.run == s.past.discarded[i].0)
  }

  function LastProcessed(s: State): nat
    requires s.past.processed != []
  {
    s.past.processed[|s.past.processed| - 1].0
  }

  /** The current run's blocks have not been collected. */
  predicate NotYetProcessed(s: State) {
    || s.ctl.Joining? || ScanActive(s.scan) || s.scan.PostingProcess? || s.scan.PostingDiscard?
    || s.jobs != [] || s.worker.Collecting?
  }

  /** The worker is about to take the Stopping of a later run for that of its own. */
  predicate BadReread(s: State) {
    s.worker.Rereading? && s.worker.run != s.run && s.fsm.state == Stopping
  }

  /** The step does not re-read the state at such a moment. */
  predicate Clean(s: State, step: Step) {
    !(step.WorkerRereads? && BadReread(s))
  }

  ghost predicate Inv(n: nat, s: State) {
    Phase(n, s) && History(n, s)
  }

  // ---- every step keeps it ------------------------------------------------------------------------

  lemma LinesGrow(run: nat, k: nat)
    ensures Lines(run, k) + [Block(run, k, true)] == Lines(run, k + 1)
  {
  }

  lemma ControllerKeepsPhase(n: nat, s: State, step: Step)
    requires Phase(n, s)
    ensures Phase(n, ControllerStep(n, s, step))
  {
    assert Lines(s.run, 0) == [];
  }

  lemma ScanKeepsPhase(n: nat, s: State, step: Step)
    requires Phase(n, s)
    ensures Phase(n, ScanStep(n, s, step))
  {
    if s.scan.Pushing? {
      LinesGrow(s.run, s.scan.line);
    }
  }

  lemma CollectingKeepsPhase(n: nat, s: State, step: Step)
    requires Phase(n, s) && (step.WorkerTakesJob? || step.WorkerCollects?)
    ensures Phase(n, WorkerStep(n, s, step))
  {
    if s.worker.Collecting? && s.queue != [] {
      assert s.worker.lines + [s.queue[0]] + s.queue[1..] == s.worker.lines + s.queue;
    }
  }

  lemma WorkKeepsPhase(n: nat, s: State, step: Step)
    requires Phase(n, s) && Clean(s, step) && !step.WorkerTakesJob? && !step.WorkerCollects?
    ensures Phase(n, WorkerStep(n, s, step))
  {
  }

  lemma StepKeepsPhase(n: nat, s: State, step: Step)
    requires Phase(n, s) && Clean(s, step)
    ensures Phase(n, Next(n, s, step))
  {
    if IsCommand(step) || step.JoinReturns? {
      ControllerKeepsPhase(n, s, step);
    } else if IsScanStep(step) {
      ScanKeepsPhase(n, s, step);
    } else if step.WorkerTakesJob? || step.WorkerCollects? {
      CollectingKeepsPhase(n, s, step);
    } else {
      WorkKeepsPhase(n, s, step);
    }
  }

  lemma ControllerKeepsHistory(n: nat, s: State, step: Step)
    requires Phase(n, s) && History(n, s)
    ensures History(n, ControllerStep(n, s, step))
  {
  }

  lemma ScanKeepsHistory(n: nat, s: State, step: Step)
    requires Phase(n, s) && History(n, s)
    ensures History(n, ScanStep(n, s, step))
  {
  }

  lemma TakeBlock(taken: seq<Block>, queue: seq<Block>)
    requires queue != []
    ensures taken + queue == taken + [queue[0]] + queue[1..]
  {
  }

  lemma CollectingKeepsHistory(n: nat, s: State)
    requires Phase(n, s) && History(n, s)
    ensures History(n, WorkerStep(n, s, WorkerCollects))
  {
    if s.queue != [] {
      TakeBlock(s.past.taken, s.queue);
    }
  }

  lemma DiscardingKeepsHistory(n: nat, s: State)
    requires Phase(n, s) && History(n, s)
    ensures History(n, WorkerStep(n, s, WorkerDiscards))
  {
    if s.queue != [] {
      TakeBlock(s.past.taken, s.queue);
    }
  }

  lemma WorkKeepsHistory(n: nat, s: State, step: Step)
    requires Phase(n, s) && History(n, s) && !step.WorkerCollects? && !step.WorkerDiscards?
    ensures History(n, WorkerStep(n, s, step))
  {
    assert WorkerStep(n, s, step).past == s.past;
  }

  lemma StepKeepsHistory(n: nat, s: State, step: Step)
    requires Phase(n, s) && History(n, s)
    ensures History(n, Next(n, s, step))
  {
    if IsCommand(step) || step.JoinReturns? {
      ControllerKeepsHistory(n, s, step);
    } else if IsScanStep(step) {
      ScanKeepsHistory(n, s, step);
    } else if step.WorkerCollects? {
      CollectingKeepsHistory(n, s);
    } else if step.WorkerDiscards? {
      DiscardingKeepsHistory(n, s);
    } else {
      WorkKeepsHistory(n, s, step);
    }
  }

  /** No step of the run re-reads the state for an older run while the current one is stopping. */
  predicate CleanFrom(n: nat, s: State, steps: seq<Step>)
    decreases |steps|
  {
    steps == [] || (Clean(s, steps[0]) && CleanFrom(n, Next(n, s, steps[0]), steps[1..]))
  }

  lemma {:induction false} RunKeepsInv(n: nat, s: State, steps: seq<Step>)
    requires Inv(n, s) && CleanFrom(n, s, steps)
    ensures Inv(n, RunFrom(n, s, steps))
    decreases |steps|
  {
    if steps != [] {
      StepKeepsPhase(n, s, steps[0]);
      StepKeepsHistory(n, s, steps[0]);
      RunKeepsInv(n, Next(n, s, steps[0]), steps[1..]);
    }
  }

  // ---- what every clean run guarantees ------------------------------------------------------------

  /** The final state of a run of n-line scans. */
  function Run(n: nat, steps: seq<Step>): State {
    RunFrom(n, Init(), steps)
  }

  predicate CleanRun(n: nat, steps: seq<Step>) {
    CleanFrom(n, Init(), steps)
  }

  lemma RunInvariant(n: nat, steps: seq<Step>)
    requires CleanRun(n, steps)
    ensures Inv(n, Run(n, steps))
  {
    RunKeepsInv(n, Init(), steps);
  }

  /** Each processed wafer got exactly its own lines, complete and in order, and only once. */
  lemma WaferGetsItsOwnLines(n: nat, steps: seq<Step>)
    requires CleanRun(n, steps)
    ensures var s := Run(n, steps);
            forall i :: 0 <= i < |s.past.processed| ==>
              |s.past.processed[i].1| == n
              && forall line :: 0 <= line < n ==>
                   s.past.processed[i].1[line] == Block(s.past.processed[i].0, line, true)
    ensures var s := Run(n, steps);
            forall i, j :: 0 <= i < j < |s.past.processed| ==> s.past.processed[i].0 < s.past.processed[j].0
  {
    RunInvariant(n, steps);
    var s := Run(n, steps);
    forall i, j | 0 <= i < j < |s.past.processed|
      ensures s.past.processed[i].0 < s.past.processed[j].0
    {
      Increasing(s.past.processed, i, j);
    }
  }

  lemma {:induction false} Increasing(processed: seq<(nat, seq<Block>)>, i: nat, j: nat)
    requires i < j < |processed|
    requires forall k :: 0 < k < |processed| ==> processed[k - 1].0 < processed[k].0
    ensures processed[i].0 < processed[j].0
    decreases j
  {
    if i < j - 1 {
      Increasing(processed, i, j - 1);
    }
    assert processed[j - 1].0 < processed[j].0;
  }

  /** A discard takes blocks of its own run only. */
  lemma DiscardStaysInItsRun(n: nat, steps: seq<Step>)
    requires CleanRun(n, steps)
    ensures var s := Run(n, steps);
            forall i :: 0 <= i < |s.past.discarded| ==> s.past.discarded[i].1.run == s.past.discarded[i].0
  {
    RunInvariant(n, steps);
  }

  /** Every pushed block is taken in order or still queued; none waits while the machine is Idle. */
  lemma BlocksAreConserved(n: nat, steps: seq<Step>)
    requires CleanRun(n, steps)
    ensures var s := Run(n, steps); s.past.pushed == s.past.taken + s.queue
    ensures var s := Run(n, steps); Quiet(s.fsm.state) ==> AtRest(s) && s.past.pushed == s.past.taken
  {
    RunInvariant(n, steps);
  }

  /** The controller's join never waits: the old scan thread has already finished. */
  lemma JoinIsImmediate(n: nat, steps: seq<Step>)
    requires CleanRun(n, steps)
    ensures var s := Run(n, steps);
            s.ctl.Joining? ==> ScanOver(s.scan) && Next(n, s, JoinReturns) != s
  {
    RunInvariant(n, steps);
  }

  /** No push of a block or of a job ever finds its queue full. */
  lemma QueuesNeverFill(n: nat, steps: seq<Step>)
    requires CleanRun(n, steps)
    ensures var s := Run(n, steps);
            && (s.scan.Pushing? ==> |s.queue| < n + 1)
            && (s.scan.PostingProcess? || s.scan.PostingDiscard? ==> s.jobs == [])
            && |s.jobs| <= 1
  {
    RunInvariant(n, steps);
  }

  // ---- every run ends ---------------------------------------------------------------------------

  function ScanWork(n: nat, scan: ScanPc): nat {
    match scan
    case AtLine(line) => if line < n then 9 + 4 * (n - line) + 1 else 10
    case Pushing(line, _) => if line < n then 9 + 4 * (n - line) else 9
    case Reporting => 9
    case PostingProcess => 8
    case PostingDiscard => 8
    case _ => 0
  }

  function WorkerWork(worker: WorkerPc): nat {
    match worker
    case WaitJob => 0
    case Writing => 1
    case AwaitStageStopped(_) => 2
    case Rereading(_) => 3
    case Discarding(_) => 3
    case AwaitResult(_) => 4
    case Checking(_) => 5
    case Collecting(_, _) => 6
  }

  /** An upper bound for the steps the three threads can take before the next command. */
  function Work(n: nat, s: State): nat {
    (if s.ctl.Joining? then 4 * n + 11 else 0) + ScanWork(n, s.scan) + 7 * |s.jobs| + |s.queue|
    + WorkerWork(s.worker)
  }

  lemma ScanDoesWork(n: nat, s: State, step: Step)
    requires Phase(n, s) && ScanStep(n, s, step) != s
    ensures Work(n, ScanStep(n, s, step)) < Work(n, s)
  {
  }

  lemma WorkerDoesWork(n: nat, s: State, step: Step)
    requires Phase(n, s) && WorkerStep(n, s, step) != s
    ensures Work(n, WorkerStep(n, s, step)) < Work(n, s)
  {
  }

  lemma StepDoesWork(n: nat, s: State, step: Step)
    requires Phase(n, s) && !IsCommand(step) && Next(n, s, step) != s
    ensures Work(n, Next(n, s, step)) < Work(n, s)
  {
    if IsScanStep(step) {
      ScanDoesWork(n, s, step);
    } else if !step.JoinReturns? {
      WorkerDoesWork(n, s, step);
    }
  }

  /** The step that some thread can take while a run is not over. */
  function Enabled(s: State): Step {
    if s.ctl.Joining? then JoinReturns
    else match s.scan
      case AtLine(_) => ScanEndsLine
      case Pushing(_, _) => ScanPushes
      case Reporting => ScanReports
      case PostingProcess => ScanPosts
      case PostingDiscard => ScanPosts
      case _ =>
        match s.worker
        case WaitJob => WorkerTakesJob
        case Collecting(_, _) => WorkerCollects
        case Checking(_) => WorkerChecks
        case AwaitResult(_) => WorkerDelivers(false)
        case Rereading(_) => WorkerRereads
        case Discarding(_) => WorkerDiscards
        case AwaitStageStopped(_) => WorkerStopsStage
        case Writing => WorkerWrites
  }

  /**
   * Every run ends by itself: as long as the machine is neither Idle nor in Alarm some thread can
   * move without a further command, and every such move lowers a bound that starts finite.
   */
  lemma RunsEnd(n: nat, steps: seq<Step>)
    requires CleanRun(n, steps)
    ensures var s := Run(n, steps);
            !Quiet(s.fsm.state) ==>
              !IsCommand(Enabled(s)) && Next(n, s, Enabled(s)) != s
    ensures var s := Run(n, steps);
            forall step :: !IsCommand(step) && Next(n, s, step) != s ==>
              Work(n, Next(n, s, step)) < Work(n, s)
  {
    RunInvariant(n, steps);
    var s := Run(n, steps);
    forall step | !IsCommand(step) && Next(n, s, step) != s
      ensures Work(n, Next(n, s, step)) < Work(n, s)
    {
      StepDoesWork(n, s, step);
    }
  }

  // ---- when a run is clean --------------------------------------------------------------------------

  /** A step from a state that fits leads to one that does exactly if it is clean. */
  lemma CleanStepIff(n: nat, s: State, step: Step)
    requires Phase(n, s)
    ensures Phase(n, Next(n, s, step)) <==> Clean(s, step)
  {
    if Clean(s, step) {
      StepKeepsPhase(n, s, step);
    }
  }

  /** Every state on the way fits. */
  predicate FitsFrom(n: nat, s: State, steps: seq<Step>)
    decreases |steps|
  {
    Phase(n, s) && (steps == [] || FitsFrom(n, Next(n, s, steps[0]), steps[1..]))
  }

  lemma {:induction false} CleanIffFits(n: nat, s: State, steps: seq<Step>)
    requires Phase(n, s)
    ensures CleanFrom(n, s, steps) <==> FitsFrom(n, s, steps)
    decreases |steps|
  {
    if steps != [] {
      CleanStepIff(n, s, steps[0]);
      if Clean(s, steps[0]) {
        CleanIffFits(n, Next(n, s, steps[0]), steps[1..]);
      }
    }
  }

  /** A run is clean exactly if the phase of its current run fits the machine's state throughout. */
  lemma RunIsCleanIff(n: nat, steps: seq<Step>)
    ensures CleanRun(n, steps) <==> FitsFrom(n, Init(), steps)
  {
    CleanIffFits(n, Init(), steps);
  }

  /** An Abort that is accepted now would meet a worker that re-reads for an older run. */
  predicate EarlyAbort(s: State, step: Step) {
    && step.AbortCommand? && s.ctl.Free? && Accepts(s, Abort)
    && s.worker.Rereading? && s.worker.run != s.run
  }

  predicate NoEarlyAbort(n: nat, s: State, steps: seq<Step>)
    decreases |steps|
  {
    steps == [] || (!EarlyAbort(s, steps[0]) && NoEarlyAbort(n, Next(n, s, steps[0]), steps[1..]))
  }

  lemma NeverBad(n: nat, s: State, step: Step)
    requires Phase(n, s) && !BadReread(s) && !EarlyAbort(s, step)
    ensures !BadReread(Next(n, s, step))
  {
    if IsCommand(step) || step.JoinReturns? {
      CommandNeverBad(n, s, step);
    } else if IsScanStep(step) {
      ScanNeverBad(n, s, step);
    }
  }

  lemma CommandNeverBad(n: nat, s: State, step: Step)
    requires Phase(n, s) && !BadReread(s) && !EarlyAbort(s, step)
    ensures !BadReread(ControllerStep(n, s, step))
  {
  }

  lemma ScanNeverBad(n: nat, s: State, step: Step)
    requires !BadReread(s)
    ensures !BadReread(ScanStep(n, s, step))
  {
  }

  lemma {:induction false} WithoutEarlyAbortFrom(n: nat, s: State, steps: seq<Step>)
    requires Phase(n, s) && !BadReread(s) && NoEarlyAbort(n, s, steps)
    ensures CleanFrom(n, s, steps)
    decreases |steps|
  {
    if steps != [] {
      NeverBad(n, s, steps[0]);
      StepKeepsPhase(n, s, steps[0]);
      WithoutEarlyAbortFrom(n, Next(n, s, steps[0]), steps[1..]);
    }
  }

  /** For callers: a run in which no Abort comes too early is clean, whatever else happens. */
  lemma WithoutEarlyAbortClean(n: nat, steps: seq<Step>)
    requires NoEarlyAbort(n, Init(), steps)
    ensures CleanRun(n, steps)
  {
    WithoutEarlyAbortFrom(n, Init(), steps);
  }

  /** The worker is about to report the stage as stopped while the current run is not over. */
  predicate WillEndTheWrongRun(s: State) {
    && s.worker.AwaitStageStopped? && s.fsm.state == Stopping && s.ctl.Free?
    && (!ScanOver(s.scan) || s.jobs != [])
  }

  lemma BadRereadWillEnd(n: nat, s: State)
    requires Phase(n, s) && BadReread(s)
    ensures WillEndTheWrongRun(Next(n, s, WorkerRereads))
  {
  }

  lemma NothingPreventsIt(n: nat, s: State, step: Step)
    requires WillEndTheWrongRun(s) && !step.WorkerStopsStage?
    ensures WillEndTheWrongRun(Next(n, s, step))
  {
    if IsScanStep(step) {
      ScanDoesNotPrevent(n, s, step);
    }
  }

  lemma ScanDoesNotPrevent(n: nat, s: State, step: Step)
    requires WillEndTheWrongRun(s)
    ensures WillEndTheWrongRun(ScanStep(n, s, step))
  {
  }

  lemma {:induction false} NothingPreventsItFor(n: nat, s: State, between: seq<Step>)
    requires WillEndTheWrongRun(s) && forall k :: 0 <= k < |between| ==> !between[k].WorkerStopsStage?
    ensures WillEndTheWrongRun(RunFrom(n, s, between))
    decreases |between|
  {
    if between != [] {
      NothingPreventsIt(n, s, between[0]);
      NothingPreventsItFor(n, Next(n, s, between[0]), between[1..]);
    }
  }

  /** After every such read, whatever the threads and callers do meanwhile, the next report of the worker
      ends the wrong run: the machine is Idle although the newer run has a scan thread, a job or blocks
      left. */
  lemma BadRereadEndsTheWrongRun(n: nat, s: State, between: seq<Step>)
    requires Phase(n, s) && BadReread(s)
    requires forall k :: 0 <= k < |between| ==> !between[k].WorkerStopsStage?
    ensures var t := Next(n, RunFrom(n, Next(n, s, WorkerRereads), between), WorkerStopsStage);
            t.fsm.state == Idle && !AtRest(t)
  {
    BadRereadWillEnd(n, s);
    NothingPreventsItFor(n, Next(n, s, WorkerRereads), between);
  }

  /** And every Abort that comes too early can lead there. */
  lemma EarlyAbortCanEndTheWrongRun(n: nat, steps: seq<Step>)
    requires CleanRun(n, steps) && EarlyAbort(Run(n, steps), AbortCommand)
    ensures var s := Next(n, Run(n, steps), AbortCommand);
            var t := Next(n, Next(n, s, WorkerRereads), WorkerStopsStage);
            t.fsm.state == Idle && !AtRest(t)
  {
    RunInvariant(n, steps);
    var s := Run(n, steps);
    ControllerKeepsPhase(n, s, AbortCommand);
    BadRereadEndsTheWrongRun(n, Next(n, s, AbortCommand), []);
  }

  // ---- such a run exists ------------------------------------------------------------------------------

  ghost predicate Reachable(n: nat, s: State) {
    exists steps :: CleanRun(n, steps) && Run(n, steps) == s
  }

  lemma {:induction false} RunFromAppends(n: nat, s: State, steps: seq<Step>, last: Step)
    ensures RunFrom(n, s, steps + [last]) == Next(n, RunFrom(n, s, steps), last)
    ensures CleanFrom(n, s, steps) && Clean(RunFrom(n, s, steps), last) ==> CleanFrom(n, s, steps + [last])
    decreases |steps|
  {
    if steps == [] {
      assert steps + [last] == [last];
    } else {
      assert (steps + [last])[1..] == steps[1..] + [last];
      RunFromAppends(n, Next(n, s, steps[0]), steps[1..], last);
    }
  }

  lemma Take(n: nat, s: State, step: Step) returns (s': State)
    requires Reachable(n, s) && Clean(s, step)
    ensures s' == Next(n, s, step) && Reachable(n, s') && Phase(n, s) && Phase(n, s')
  {
    var steps :| CleanRun(n, steps) && Run(n, steps) == s;
    RunInvariant(n, steps);
    RunFromAppends(n, Init(), steps, step);
    s' := Next(n, s, step);
    assert Run(n, steps + [step]) == s';
    RunInvariant(n, steps + [step]);
  }

  /** Started, not stopped or aborted. */
  predicate Going(s: State, state: ProcessState) {
    s.fsm == Fsm(state, false) && s.ctl.Free?
  }

  lemma {:induction false} ScanAllLines(n: nat, s: State) returns (s': State)
    requires Reachable(n, s) && Going(s, Scanning) && s.worker.WaitJob?
    requires s.scan.Reporting? || (s.scan.AtLine? && s.scan.line < n)
    ensures Reachable(n, s') && Going(s', Scanning) && s'.worker.WaitJob? && s'.scan.Reporting?
    decreases if s.scan.AtLine? then n - s.scan.line else 0
  {
    s' := s;
    if s.scan.AtLine? {
      s' := Take(n, s', ScanEndsLine);
      s' := Take(n, s', ScanPushes);
      s' := ScanAllLines(n, s');
    }
  }

  lemma {:induction false} CollectAllLines(n: nat, s: State) returns (s': State)
    requires Reachable(n, s) && Going(s, Processing) && s.worker.Collecting? && |s.worker.lines| <= n
    ensures Reachable(n, s') && Going(s', Processing) && s'.worker.Checking?
    decreases n - |s.worker.lines|
  {
    s' := Take(n, s, WorkerCollects);
    if |s.worker.lines| < n {
      LinesLeft(n, s);
      s' := CollectAllLines(n, s');
    }
  }

  lemma LinesLeft(n: nat, s: State)
    requires Phase(n, s) && Going(s, Processing) && s.worker.Collecting? && |s.worker.lines| < n
    ensures s.queue != []
  {
    assert |s.worker.lines + s.queue| == n;
  }

  lemma StartFirstRun(n: nat) returns (s: State)
    ensures Reachable(n, s) && Going(s, Scanning) && s.worker.WaitJob?
    ensures s.scan.Reporting? || (s.scan.AtLine? && s.scan.line < n)
  {
    s := Init();
    assert CleanRun(n, []) && Run(n, []) == s;
    s := Take(n, s, StartCommand);
    s := Take(n, s, JoinReturns);
  }

  lemma HandOver(n: nat, s: State) returns (s': State)
    requires Reachable(n, s) && Going(s, Scanning) && s.worker.WaitJob? && s.scan.Reporting?
    ensures Reachable(n, s') && Going(s', Processing) && s'.worker.Collecting? && s'.worker.lines == []
  {
    s' := ReportAndPost(n, s);
    s' := Take(n, s', WorkerTakesJob);
  }

  lemma ReportAndPost(n: nat, s: State) returns (s': State)
    requires Reachable(n, s) && Going(s, Scanning) && s.worker.WaitJob? && s.scan.Reporting?
    ensures Reachable(n, s') && Going(s', Processing) && s'.worker.WaitJob?
    ensures |s'.jobs| == 1 && s'.jobs[0].ProcessWafer?
  {
    s' := Take(n, s, ScanReports);
    assert Going(s', Processing) && s'.scan.PostingProcess? && s'.jobs == [];
    s' := Take(n, s', ScanPosts);
  }

  lemma Deliver(n: nat, s: State) returns (s': State)
    requires Reachable(n, s) && Going(s, Processing) && s.worker.Checking?
    ensures Reachable(n, s') && Going(s', Idle) && s'.worker.Rereading? && s'.worker.run <= s'.run
  {
    s' := Take(n, s, WorkerChecks);
    s' := Take(n, s', WorkerDelivers(false));
  }

  /** For every number of lines a clean run reaches a moment at which an Abort comes too early. */
  lemma EarlyAbortIsReachable(n: nat) returns (s: State)
    ensures Reachable(n, s) && EarlyAbort(s, AbortCommand)
  {
    s := StartFirstRun(n);
    s := ScanAllLines(n, s);
    s := HandOver(n, s);
    s := CollectAllLines(n, s);
    s := Deliver(n, s);
    s := Take(n, s, StartCommand);
    s := Take(n, s, JoinReturns);
  }

  /**
   * The result and the second read of the state are two steps: for every number of lines there is a
   * run in which a Start and an Abort fall between them, and the worker reports the stage of the new
   * run as stopped, so that the machine is Idle while the new run goes on.
   */
  lemma SeparateRereadEndsTheWrongRun(n: nat)
    ensures exists steps :: var t := Run(n, steps); t.fsm.state == Idle && !AtRest(t)
  {
    var s := EarlyAbortIsReachable(n);
    var steps :| CleanRun(n, steps) && Run(n, steps) == s;
    EarlyAbortCanEndTheWrongRun(n, steps);
    RunFromAppends(n, Init(), steps, AbortCommand);
    RunFromAppends(n, Init(), steps + [AbortCommand], WorkerRereads);
    RunFromAppends(n, Init(), steps + [AbortCommand] + [WorkerRereads], WorkerStopsStage);
    var all := steps + [AbortCommand] + [WorkerRereads] + [WorkerStopsStage];
    assert Run(n, all).fsm.state == Idle && !AtRest(Run(n, all));
  }
}
