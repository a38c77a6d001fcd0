/** src/core/process_state_machine.cpp: the process states and their transition table. */
module ProcessMachine {
  import opened Common

  datatype ProcessState = Idle | Scanning | Processing | Alarm | Stopping

  datatype Trigger =
    Start | LinesComplete | Stop | Abort | Fault | ResultReady | ClearAlarm | StageStopped

  const ILLEGAL_TRANSITION := 100
  const CONTROL_STATE_DENIED := 101
  const ACTIVE_ALARM := 102
  const INVALID_WAFER := 103
  const ALARM_NOT_CLEARED := 104

  datatype Guards = Guards(controlAllowsStart: bool, hasActiveAlarm: bool, waferValid: bool,
                           moreWafersPending: bool, alarmCauseCleared: bool)

  /** The default guards let every transition through and announce no further wafer. */
  const OPEN := Guards(true, false, true, false, true)

  datatype Fsm = Fsm(state: ProcessState, stopAfterWafer: bool)

  /** The rows of the table that need no guard, and the guarded ones with their guard open. */
  predicate InTable(from: ProcessState, trigger: Trigger, to: ProcessState) {
    || (from == Idle && trigger == Start && to == Scanning)
    || (from == Scanning && trigger == LinesComplete && to == Processing)
    || (from == Scanning && trigger == Stop && to == Scanning)
    || (from == Processing && trigger == ResultReady && to in {Scanning, Idle})
    || (from in {Scanning, Processing} && trigger == Abort && to == Stopping)
    || (from in {Scanning, Processing} && trigger == Fault && to == Alarm)
    || (from == Alarm && trigger == ClearAlarm && to == Idle)
    || (from == Stopping && trigger == StageStopped && to == Idle)
  }

  /** The effect of one trigger: the machine afterwards and what apply returns. */
  function Transition(m: Fsm, trigger: Trigger, g: Guards): (Fsm, Result<ProcessState>) {
    match m.state
    case Idle =>
      if trigger != Start then (m, Err(ILLEGAL_TRANSITION))
      else if !g.controlAllowsStart then (m, Err(CONTROL_STATE_DENIED))
      else if g.hasActiveAlarm then (m, Err(ACTIVE_ALARM))
      else if !g.waferValid then (m, Err(INVALID_WAFER))
      else (Fsm(Scanning, false), Ok(Scanning))
    case Scanning =>
      (match trigger
       case LinesComplete => (m.(state := Processing), Ok(Processing))
       case Stop => (m.(stopAfterWafer := true), Ok(Scanning))
       case Abort => (m.(state := Stopping), Ok(Stopping))
       case Fault => (m.(state := Alarm), Ok(Alarm))
       case _ => (m, Err(ILLEGAL_TRANSITION)))
    case Processing =>
      (match trigger
       case ResultReady =>
         if g.moreWafersPending && !m.stopAfterWafer then (m.(state := Scanning), Ok(Scanning))
         else (Fsm(Idle, false), Ok(Idle))
       case Fault => (m.(state := Alarm), Ok(Alarm))
       case Abort => (m.(state := Stopping), Ok(Stopping))
       case _ => (m, Err(ILLEGAL_TRANSITION)))
    case Alarm =>
      if trigger != ClearAlarm then (m, Err(ILLEGAL_TRANSITION))
      else if !g.alarmCauseCleared then (m, Err(ALARM_NOT_CLEARED))
      else (m.(state := Idle), Ok(Idle))
    case Stopping =>
      if trigger != StageStopped then (m, Err(ILLEGAL_TRANSITION))
      else (Fsm(Idle, false), Ok(Idle))
  }

  /** A trigger is accepted exactly when the table has a row for it and the row's guard holds. */
  lemma TransitionFollowsTable(m: Fsm, trigger: Trigger, g: Guards)
    ensures var (m', r) := Transition(m, trigger, g);
            && (r.Ok? ==> r.value == m'.state && InTable(m.state, trigger, m'.state))
            && (r.Err? ==> m' == m)
    ensures Transition(m, trigger, g).1.Ok? <==>
              && (exists to :: InTable(m.state, trigger, to))
              && (trigger == Start ==> g.controlAllowsStart && !g.hasActiveAlarm && g.waferValid)
              && (trigger == ClearAlarm ==> g.alarmCauseCleared)
    ensures m.state == Processing && trigger == ResultReady ==>
              (Transition(m, trigger, g).0.state == Scanning <==> g.moreWafersPending && !m.stopAfterWafer)
  {
    assert Transition(m, trigger, g).1.Ok? ==>
        InTable(m.state, trigger, Transition(m, trigger, g).0.state);
  }

  class ProcessStateMachine {
    var state: ProcessState
    var stopAfterWafer: bool

    ghost function Value(): Fsm
      reads this
    {
      Fsm(state, stopAfterWafer)
    }

    constructor ()
      ensures Value() == Fsm(Idle, false)
    {
      state, stopAfterWafer := Idle, false;
    }

    method Apply(trigger: Trigger, g: Guards) returns (r: Result<ProcessState>)
      modifies this
      ensures (Value(), r) == Transition(old(Value()), trigger, g)
    {
      match state
      case Idle =>
        if trigger != Start { return Err(ILLEGAL_TRANSITION); }
        if !g.controlAllowsStart { return Err(CONTROL_STATE_DENIED); }
        if g.hasActiveAlarm { return Err(ACTIVE_ALARM); }
        if !g.waferValid { return Err(INVALID_WAFER); }
        stopAfterWafer, state := false, Scanning;
        return Ok(state);
      case Scanning =>
        match trigger {
          case LinesComplete => state := Processing;
          case Stop => stopAfterWafer := true;
          case Abort => state := Stopping;
          case Fault => state := Alarm;
          case _ => return Err(ILLEGAL_TRANSITION);
        }
        return Ok(state);
      case Processing =>
        match trigger {
          case ResultReady =>
            state := if g.moreWafersPending && !stopAfterWafer then Scanning else Idle;
            if state == Idle { stopAfterWafer := false; }
          case Fault => state := Alarm;
          case Abort => state := Stopping;
          case _ => return Err(ILLEGAL_TRANSITION);
        }
        return Ok(state);
      case Alarm =>
        if trigger != ClearAlarm { return Err(ILLEGAL_TRANSITION); }
        if !g.alarmCauseCleared { return Err(ALARM_NOT_CLEARED); }
        state := Idle;
        return Ok(state);
      case Stopping =>
        if trigger != StageStopped { return Err(ILLEGAL_TRANSITION); }
        state, stopAfterWafer := Idle, false;
        return Ok(state);
    }
  }
}

/** src/core/controller.cpp: what the controller thread does with one inbox item after another. */
module ControllerModel {
  import opened Common
  import opened ProcessMachine

  datatype ControlMode = Offline | OnlineLocal | OnlineRemote
  datatype Source = Ui | Cli | SecsGem

  datatype Payload =
    | StartWafer(wafer: string)
    | StopRun
    | AbortRun
    | ClearAlarms
    | SetMode(mode: ControlMode)

  datatype Item =
    | Command(payload: Payload, source: Source)
    | ScanComplete(wafer: string)
    | ProcessingResult(outOfSpec: bool, raised: Option<int>, morePending: bool)
    | FaultNotice(alarm: int)
    | StageStoppedNotice

  datatype Event =
    | StateChanged(from: ProcessState, to: ProcessState)
    | ControlStateChanged(fromMode: ControlMode, toMode: ControlMode)
    | ScanStarted(wafer: string)
    | ScanLinesComplete(wafer: string)
    | WaferOutOfSpec(wafer: string)
    | WaferComplete(wafer: string, outOfSpec: bool)
    | RunAborted(wafer: string)
    | AlarmSet(alarm: int)
    | AlarmsCleared

  datatype DriverCall = DriverStart(wafer: string) | DriverAbort

  datatype State = State(fsm: Fsm, state: ProcessState, mode: ControlMode, hasActiveAlarm: bool,
                         wafer: string, events: seq<Event>, driver: seq<DriverCall>)

  function Init(mode: ControlMode): State {
    State(Fsm(Idle, false), Idle, mode, false, "", [], [])
  }

  predicate ControlAllowsStart(mode: ControlMode, source: Source) {
    if mode == OnlineRemote then source == SecsGem else source != SecsGem
  }

  predicate ControlAllowsHostCommand(mode: ControlMode, source: Source) {
    source != SecsGem || mode == OnlineRemote
  }

  predicate ControlAllowsSetMode(requested: ControlMode, current: ControlMode, source: Source) {
    source != SecsGem || requested == Offline || current == Offline
  }

  function Publish(c: State, event: Event): State {
    c.(events := c.events + [event])
  }

  /** transition: apply the trigger, store the state and publish a change of state. */
  function Fire(c: State, trigger: Trigger, g: Guards): (State, Result<ProcessState>) {
    var (fsm, r) := Transition(c.fsm, trigger, g);
    var c1 := c.(fsm := fsm);
    if r.Ok? && fsm.state != c.fsm.state then
      (Publish(c1.(state := fsm.state), StateChanged(c.fsm.state, fsm.state)), r)
    else (c1, r)
  }

  function RaiseFault(c: State, alarm: int): (State, Result<ProcessState>) {
    var (c1, r) := Fire(c, Fault, OPEN);
    if r.Ok? then (Publish(c1.(hasActiveAlarm := true), AlarmSet(alarm)), r) else (c1, r)
  }

  function HandleCommand(c: State, payload: Payload, source: Source): (State, Result<ProcessState>) {
    match payload
    case StartWafer(wafer) =>
      var g := OPEN.(controlAllowsStart := ControlAllowsStart(c.mode, source),
                     hasActiveAlarm := c.hasActiveAlarm, waferValid := wafer != "");
      var (c1, r) := Fire(c, Start, g);
      if r.Ok? then
        (Publish(c1.(wafer := wafer, driver := c1.driver + [DriverStart(wafer)]), ScanStarted(wafer)), r)
      else (c1, r)
    case StopRun =>
      if !ControlAllowsHostCommand(c.mode, source) then (c, Err(CONTROL_STATE_DENIED))
      else Fire(c, Stop, OPEN)
    case AbortRun =>
      if !ControlAllowsHostCommand(c.mode, source) then (c, Err(CONTROL_STATE_DENIED))
      else
        var (c1, r) := Fire(c, Abort, OPEN);
        if r.Ok? then (c1.(driver := c1.driver + [DriverAbort]), r) else (c1, r)
    case ClearAlarms =>
      if !ControlAllowsHostCommand(c.mode, source) then (c, Err(CONTROL_STATE_DENIED))
      else
        var (c1, r) := Fire(c, ClearAlarm, OPEN);
        if r.Ok? then (Publish(c1.(hasActiveAlarm := false), AlarmsCleared), r) else (c1, r)
    case SetMode(mode) =>
      if !ControlAllowsSetMode(mode, c.mode, source) then (c, Err(CONTROL_STATE_DENIED))
      else (Publish(c.(mode := mode), ControlStateChanged(c.mode, mode)), Ok(c.state))
  }

  /** One inbox item on the controller thread. */
  function Handle(c: State, item: Item): (State, Result<ProcessState>) {
    match item
    case Command(payload, source) => HandleCommand(c, payload, source)
    case ScanComplete(wafer) => Fire(Publish(c, ScanLinesComplete(wafer)), LinesComplete, OPEN)
    case ProcessingResult(outOfSpec, raised, morePending) =>
      if raised.Some? then RaiseFault(c, raised.value)
      else
        var c0 := if outOfSpec then Publish(c, WaferOutOfSpec(c.wafer)) else c;
        var (c1, r) := Fire(c0, ResultReady, OPEN.(moreWafersPending := morePending));
        if r.Ok? then (Publish(c1, WaferComplete(c.wafer, outOfSpec)), r) else (c1, r)
    case FaultNotice(alarm) => RaiseFault(c, alarm)
    case StageStoppedNotice =>
      var (c1, r) := Fire(c, StageStopped, OPEN);
      if r.Ok? then (Publish(c1, RunAborted(c1.wafer)), r) else (c1, r)
  }

  function Run(c: State, items: seq<Item>): State
    decreases |items|
  {
    if items == [] then c else Run(Handle(c, items[0]).0, items[1..])
  }

  // ---- what every run keeps -------------------------------------------------------------------

  /** Where the published StateChanged events lead from Idle, or None if two do not connect. */
  ghost function PathEnd(events: seq<Event>): Option<ProcessState> {
    if events == [] then Some(Idle)
    else
      var n := |events| - 1;
      var before := PathEnd(events[..n]);
      match events[n]
      case StateChanged(from, to) =>
        if before == Some(from) && (exists t :: InTable(from, t, to)) then Some(to) else None
      case _ => before
  }

  ghost predicate Consistent(c: State) {
    && c.state == c.fsm.state
    && (c.hasActiveAlarm <==> c.state == Alarm)
    && PathEnd(c.events) == Some(c.state)
  }

  lemma PathAfterPublish(events: seq<Event>, e: Event)
    ensures !e.StateChanged? ==> PathEnd(events + [e]) == PathEnd(events)
    ensures (e.StateChanged? && PathEnd(events) == Some(e.from) && exists t :: InTable(e.from, t, e.to))
            ==> PathEnd(events + [e]) == Some(e.to)
  {
    assert (events + [e])[..|events|] == events;
  }

  lemma FireKeepsPath(c: State, trigger: Trigger, g: Guards)
    requires c.state == c.fsm.state && PathEnd(c.events) == Some(c.state)
    ensures var (c', r) := Fire(c, trigger, g);
            && c'.state == c'.fsm.state && PathEnd(c'.events) == Some(c'.state)
            && (r.Ok? ==> InTable(c.state, trigger, c'.state)) && (r.Err? ==> c' == c)
  {
    TransitionFollowsTable(c.fsm, trigger, g);
    var m := Transition(c.fsm, trigger, g).0;
    PathAfterPublish(c.events, StateChanged(c.fsm.state, m.state));
  }

  lemma PublishKeepsConsistent(c: State, e: Event)
    requires Consistent(c) && !e.StateChanged?
    ensures Consistent(Publish(c, e))
  {
    PathAfterPublish(c.events, e);
  }

  /** A transition that concerns no alarm, with or without an event after it. */
  lemma FireThenPublish(c: State, trigger: Trigger, g: Guards, e: Event)
    requires Consistent(c) && trigger !in {Fault, ClearAlarm} && !e.StateChanged?
    ensures var c' := Fire(c, trigger, g).0; Consistent(c') && Consistent(Publish(c', e))
  {
    FireKeepsPath(c, trigger, g);
    PublishKeepsConsistent(Fire(c, trigger, g).0, e);
  }

  lemma CommandKeepsConsistent(c: State, payload: Payload, source: Source)
    requires Consistent(c)
    ensures Consistent(HandleCommand(c, payload, source).0)
  {
    match payload
    case StartWafer(wafer) =>
      var g := OPEN.(controlAllowsStart := ControlAllowsStart(c.mode, source),
                     hasActiveAlarm := c.hasActiveAlarm, waferValid := wafer != "");
      FireThenPublish(c, Start, g, ScanStarted(wafer));
    case StopRun => FireKeepsPath(c, Stop, OPEN);
    case AbortRun => FireKeepsPath(c, Abort, OPEN);
    case ClearAlarms =>
      FireKeepsPath(c, ClearAlarm, OPEN);
      PathAfterPublish(Fire(c, ClearAlarm, OPEN).0.events, AlarmsCleared);
    case SetMode(mode) => PathAfterPublish(c.events, ControlStateChanged(c.mode, mode));
  }

  lemma FaultKeepsConsistent(c: State, alarm: int)
    requires Consistent(c)
    ensures Consistent(RaiseFault(c, alarm).0)
  {
    FireKeepsPath(c, Fault, OPEN);
    PathAfterPublish(Fire(c, Fault, OPEN).0.events, AlarmSet(alarm));
  }

  lemma ItemKeepsConsistent(c: State, item: Item)
    requires Consistent(c)
    ensures Consistent(Handle(c, item).0)
  {
    match item
    case Command(payload, source) => CommandKeepsConsistent(c, payload, source);
    case ScanComplete(wafer) =>
      PublishKeepsConsistent(c, ScanLinesComplete(wafer));
      FireThenPublish(Publish(c, ScanLinesComplete(wafer)), LinesComplete, OPEN, AlarmsCleared);
    case ProcessingResult(outOfSpec, raised, morePending) =>
      if raised.Some? {
        FaultKeepsConsistent(c, raised.value);
      } else {
        PublishKeepsConsistent(c, WaferOutOfSpec(c.wafer));
        var c0 := if outOfSpec then Publish(c, WaferOutOfSpec(c.wafer)) else c;
        FireThenPublish(c0, ResultReady, OPEN.(moreWafersPending := morePending),
                        WaferComplete(c.wafer, outOfSpec));
      }
    case FaultNotice(alarm) => FaultKeepsConsistent(c, alarm);
    case StageStoppedNotice => FireThenPublish(c, StageStopped, OPEN, RunAborted(c.wafer));
  }

  /**
   * After every item of every run the published state is the machine's, an alarm is active exactly
   * in Alarm, and the StateChanged events form one path of the table from Idle to that state.
   */
  lemma {:induction false} RunIsConsistent(c: State, items: seq<Item>)
    requires Consistent(c)
    ensures Consistent(Run(c, items))
    decreases |items|
  {
    if items != [] {
      ItemKeepsConsistent(c, items[0]);
      RunIsConsistent(Handle(c, items[0]).0, items[1..]);
    }
  }

  /** In particular from the start, in whatever control mode. */
  lemma EveryRunIsConsistent(mode: ControlMode, items: seq<Item>)
    ensures Consistent(Run(Init(mode), items))
  {
    RunIsConsistent(Init(mode), items);
  }

  /** Outside Online-Remote a host command other than a mode request changes nothing at all. */
  lemma HostIsLockedOut(c: State, payload: Payload)
    requires c.mode != OnlineRemote && !payload.SetMode?
    ensures Handle(c, Command(payload, SecsGem)).0 == c
    ensures Handle(c, Command(payload, SecsGem)).1.Err?
  {
  }

  /** The operator's panel or the command line. */
  predicate FromOperator(source: Source) {
    source == Ui || source == Cli
  }

  /**
   * Exactly when a command is accepted, what it leads to, and the reason code of a refusal: in
   * Online-Remote only the host starts runs and elsewhere only the operator; the operator may always
   * stop, abort and clear, the host only in Online-Remote; the operator sets any mode, the host only
   * takes the machine off line or back from there.
   */
  lemma StartAcceptedIff(c: State, wafer: string, source: Source)
    requires Consistent(c)
    ensures var (c', r) := Handle(c, Command(StartWafer(wafer), source));
            var allowed := if c.mode == OnlineRemote then source == SecsGem else FromOperator(source);
            && (r.Ok? <==> c.state == Idle && wafer != "" && allowed)
            && (r.Ok? ==> r.value == Scanning && c'.state == Scanning && c'.wafer == wafer
                          && c'.events == c.events + [StateChanged(Idle, Scanning), ScanStarted(wafer)])
            && (r.Err? ==> c' == c && r.code == if c.state != Idle then 100 else if !allowed then 101 else 103)
  {
  }

  lemma StopAcceptedIff(c: State, source: Source)
    requires Consistent(c)
    ensures var (c', r) := Handle(c, Command(StopRun, source));
            var allowed := FromOperator(source) || c.mode == OnlineRemote;
            && (r.Ok? <==> c.state == Scanning && allowed)
            && (r.Ok? ==> c'.state == Scanning && c'.fsm.stopAfterWafer && c'.events == c.events)
            && (r.Err? ==> c' == c && r.code == if !allowed then 101 else 100)
  {
  }

  lemma AbortAcceptedIff(c: State, source: Source)
    requires Consistent(c)
    ensures var (c', r) := Handle(c, Command(AbortRun, source));
            var allowed := FromOperator(source) || c.mode == OnlineRemote;
            && (r.Ok? <==> (c.state == Scanning || c.state == Processing) && allowed)
            && (r.Ok? ==> c'.state == Stopping && c'.events == c.events + [StateChanged(c.state, Stopping)])
            && (r.Err? ==> c' == c && r.code == if !allowed then 101 else 100)
  {
  }

  lemma ClearAcceptedIff(c: State, source: Source)
    requires Consistent(c)
    ensures var (c', r) := Handle(c, Command(ClearAlarms, source));
            var allowed := FromOperator(source) || c.mode == OnlineRemote;
            && (r.Ok? <==> c.state == Alarm && allowed)
            && (r.Ok? ==> c'.state == Idle && !c'.hasActiveAlarm
                          && c'.events == c.events + [StateChanged(Alarm, Idle), AlarmsCleared])
            && (r.Err? ==> c' == c && r.code == if !allowed then 101 else 100)
  {
  }

  lemma SetModeAcceptedIff(c: State, mode: ControlMode, source: Source)
    requires Consistent(c)
    ensures var (c', r) := Handle(c, Command(SetMode(mode), source));
            && (r.Ok? <==> FromOperator(source) || mode == Offline || c.mode == Offline)
            && (r.Ok? ==> c'.mode == mode && c'.state == c.state && r.value == c.state
                          && c'.events == c.events + [ControlStateChanged(c.mode, mode)])
            && (r.Err? ==> c' == c && r.code == 101)
  {
  }

  /** The scan thread's and the worker's notices: the states that take them and what follows. */
  lemma ScanNoticesTakenIff(c: State, wafer: string)
    requires Consistent(c)
    ensures var (c', r) := Handle(c, ScanComplete(wafer));
            && (r.Ok? <==> c.state == Scanning) && (r.Ok? ==> c'.state == Processing)
            && c'.events == c.events + [ScanLinesComplete(wafer)]
                            + if r.Ok? then [StateChanged(Scanning, Processing)] else []
    ensures var (c', r) := Handle(c, StageStoppedNotice);
            && (r.Ok? <==> c.state == Stopping) && (r.Ok? ==> c'.state == Idle && !c'.fsm.stopAfterWafer)
            && c'.events == c.events + if r.Ok? then [StateChanged(Stopping, Idle), RunAborted(c.wafer)] else []
  {
  }

  lemma FaultsTakenIff(c: State, outOfSpec: bool, alarm: int, morePending: bool)
    requires Consistent(c)
    ensures var (c', r) := Handle(c, FaultNotice(alarm));
            && (r.Ok? <==> c.state == Scanning || c.state == Processing)
            && (r.Ok? ==> c'.state == Alarm && c'.hasActiveAlarm
                          && c'.events == c.events + [StateChanged(c.state, Alarm), AlarmSet(alarm)])
            && (r.Err? ==> c' == c)
    ensures Handle(c, ProcessingResult(outOfSpec, Some(alarm), morePending)) == Handle(c, FaultNotice(alarm))
  {
  }

  lemma ResultTakenIff(c: State, outOfSpec: bool, morePending: bool)
    requires Consistent(c)
    ensures var (c', r) := Handle(c, ProcessingResult(outOfSpec, None, morePending));
            var next := if morePending && !c.fsm.stopAfterWafer then Scanning else Idle;
            && (r.Ok? <==> c.state == Processing) && (r.Ok? ==> c'.state == next)
            && c'.events == c.events + (if outOfSpec then [WaferOutOfSpec(c.wafer)] else [])
                            + if r.Ok? then [StateChanged(Processing, next), WaferComplete(c.wafer, outOfSpec)] else []
  {
  }

  /** Only an accepted Start or Abort reaches the scan driver, and it reaches it once. */
  lemma DriverCalls(c: State, item: Item)
    ensures var (c', r) := Handle(c, item);
            c'.driver ==
              if item.Command? && item.payload.StartWafer? && r.Ok? then c.driver + [DriverStart(item.payload.wafer)]
              else if item.Command? && item.payload.AbortRun? && r.Ok? then c.driver + [DriverAbort]
              else c.driver
  {
  }

  // ---- stop after this wafer ------------------------------------------------------------------

  predicate AcceptedStart(c: State, item: Item) {
    item.Command? && item.payload.StartWafer? && Handle(c, item).1.Ok?
  }

  predicate NeverStarts(c: State, items: seq<Item>)
    decreases |items|
  {
    items == [] || (!AcceptedStart(c, items[0]) && NeverStarts(Handle(c, items[0]).0, items[1..]))
  }

  /** No step of the run goes from Processing back to Scanning. */
  predicate NeverResumes(c: State, items: seq<Item>)
    decreases |items|
  {
    items == [] ||
    var c' := Handle(c, items[0]).0;
    !(c.fsm.state == Processing && c'.fsm.state == Scanning) && NeverResumes(c', items[1..])
  }

  predicate StopPending(m: Fsm) {
    m.state in {Scanning, Processing} ==> m.stopAfterWafer
  }

  lemma FireKeepsStopPending(c: State, trigger: Trigger, g: Guards)
    requires StopPending(c.fsm) && (trigger != Start || Fire(c, trigger, g).1.Err?)
    ensures var c' := Fire(c, trigger, g).0;
            StopPending(c'.fsm) && !(c.fsm.state == Processing && c'.fsm.state == Scanning)
  {
  }

  lemma StopStaysPending(c: State, item: Item)
    requires StopPending(c.fsm) && !AcceptedStart(c, item)
    ensures var c' := Handle(c, item).0;
            StopPending(c'.fsm) && !(c.fsm.state == Processing && c'.fsm.state == Scanning)
  {
    match item
    case Command(StartWafer(_), _) =>
    case Command(StopRun, _) => FireKeepsStopPending(c, Stop, OPEN);
    case Command(AbortRun, _) => FireKeepsStopPending(c, Abort, OPEN);
    case Command(ClearAlarms, _) => FireKeepsStopPending(c, ClearAlarm, OPEN);
    case Command(SetMode(_), _) =>
    case ScanComplete(wafer) =>
      FireKeepsStopPending(Publish(c, ScanLinesComplete(wafer)), LinesComplete, OPEN);
    case ProcessingResult(outOfSpec, raised, morePending) =>
      FireKeepsStopPending(c, Fault, OPEN);
      var c0 := if outOfSpec then Publish(c, WaferOutOfSpec(c.wafer)) else c;
      FireKeepsStopPending(c0, ResultReady, OPEN.(moreWafersPending := morePending));
    case FaultNotice(_) => FireKeepsStopPending(c, Fault, OPEN);
    case StageStoppedNotice => FireKeepsStopPending(c, StageStopped, OPEN);
  }

  lemma {:induction false} PendingStopForbidsResuming(c: State, items: seq<Item>)
    requires StopPending(c.fsm) && NeverStarts(c, items)
    ensures NeverResumes(c, items)
    decreases |items|
  {
    if items != [] {
      StopStaysPending(c, items[0]);
      PendingStopForbidsResuming(Handle(c, items[0]).0, items[1..]);
    }
  }

  /** After an accepted Stop no run of items scans a further wafer before the next accepted Start. */
  lemma AcceptedStopEndsTheLot(c: State, source: Source, items: seq<Item>)
    requires Handle(c, Command(StopRun, source)).1.Ok?
    requires NeverStarts(Handle(c, Command(StopRun, source)).0, items)
    ensures NeverResumes(Handle(c, Command(StopRun, source)).0, items)
  {
    PendingStopForbidsResuming(Handle(c, Command(StopRun, source)).0, items);
  }

  /** A run that starts later is the same whether or not an earlier one was stopped. */
  lemma StartForgetsStop(c: State, item: Item, stopped: bool)
    requires AcceptedStart(c, item)
    ensures Handle(c.(fsm := c.fsm.(stopAfterWafer := stopped)), item) == Handle(c, item)
  {
  }

  // ---- the object -------------------------------------------------------------------------------

  class Controller {
    const fsm: ProcessStateMachine
    var state: ProcessState
    var mode: ControlMode
    var hasActiveAlarm: bool
    var wafer: string
    var events: seq<Event>
    var driver: seq<DriverCall>

    ghost function Value(): State
      reads this, fsm
    {
      State(fsm.Value(), state, mode, hasActiveAlarm, wafer, events, driver)
    }

    constructor (mode: ControlMode)
      ensures Value() == Init(mode) && fresh(fsm)
    {
      fsm := new ProcessStateMachine();
      state, this.mode, hasActiveAlarm, wafer, events, driver := Idle, mode, false, "", [], [];
    }

    method FireTrigger(trigger: Trigger, g: Guards) returns (r: Result<ProcessState>)
      modifies this, fsm
      ensures (Value(), r) == Fire(old(Value()), trigger, g)
    {
      var from := fsm.state;
      r := fsm.Apply(trigger, g);
      if r.Ok? && fsm.state != from {
        state := fsm.state;
        events := events + [StateChanged(from, fsm.state)];
      }
    }

    method FaultWith(alarm: int) returns (r: Result<ProcessState>)
      modifies this, fsm
      ensures (Value(), r) == RaiseFault(old(Value()), alarm)
    {
      r := FireTrigger(Fault, OPEN);
      if r.Ok? {
        hasActiveAlarm := true;
        events := events + [AlarmSet(alarm)];
      }
    }

    method HandleCommandItem(payload: Payload, source: Source) returns (r: Result<ProcessState>)
      modifies this, fsm
      ensures (Value(), r) == HandleCommand(old(Value()), payload, source)
    {
      match payload
      case StartWafer(id) =>
        var g := OPEN.(controlAllowsStart := ControlAllowsStart(mode, source),
                       hasActiveAlarm := hasActiveAlarm, waferValid := id != "");
        r := FireTrigger(Start, g);
        if r.Ok? {
          wafer := id;
          events := events + [ScanStarted(id)];
          driver := driver + [DriverStart(id)];
        }
      case StopRun =>
        if !ControlAllowsHostCommand(mode, source) { return Err(CONTROL_STATE_DENIED); }
        r := FireTrigger(Stop, OPEN);
      case AbortRun =>
        if !ControlAllowsHostCommand(mode, source) { return Err(CONTROL_STATE_DENIED); }
        r := FireTrigger(Abort, OPEN);
        if r.Ok? { driver := driver + [DriverAbort]; }
      case ClearAlarms =>
        if !ControlAllowsHostCommand(mode, source) { return Err(CONTROL_STATE_DENIED); }
        r := FireTrigger(ClearAlarm, OPEN);
        if r.Ok? {
          hasActiveAlarm := false;
          events := events + [AlarmsCleared];
        }
      case SetMode(requested) =>
        if !ControlAllowsSetMode(requested, mode, source) { return Err(CONTROL_STATE_DENIED); }
        events := events + [ControlStateChanged(mode, requested)];
        mode := requested;
        r := Ok(state);
    }

    method HandleItem(item: Item) returns (r: Result<ProcessState>)
      modifies this, fsm
      ensures (Value(), r) == Handle(old(Value()), item)
    {
      match item
      case Command(payload, source) => r := HandleCommandItem(payload, source);
      case ScanComplete(id) =>
        events := events + [ScanLinesComplete(id)];
        r := FireTrigger(LinesComplete, OPEN);
      case ProcessingResult(outOfSpec, raised, morePending) =>
        if raised.Some? {
          r := FaultWith(raised.value);
          return;
        }
        var id := wafer;
        if outOfSpec { events := events + [WaferOutOfSpec(id)]; }
        r := FireTrigger(ResultReady, OPEN.(moreWafersPending := morePending));
        if r.Ok? { events := events + [WaferComplete(id, outOfSpec)]; }
      case FaultNotice(alarm) => r := FaultWith(alarm);
      case StageStoppedNotice =>
        r := FireTrigger(StageStopped, OPEN);
        if r.Ok? { events := events + [RunAborted(wafer)]; }
    }
  }
}
