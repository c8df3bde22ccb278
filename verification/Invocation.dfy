/** The life of background invocations (`_spawn_invocation` and `_execute_tool` of
    routes/tools.py). Any number of them run at once over one tools table; whichever
    phase raises or is cancelled, the theorems say what becomes of the row. */
module Invocation {
  import opened Common
  import Runs

  datatype Status = Running | Completed | Failed

  /** A tool's result dictionary: its `error` key and the rest. */
  datatype Result = Result(error: Option<string>, body: string)

  /** A row of `invocations`; `finished` is `finished_at IS NOT NULL`. */
  datatype Row = Row(status: Status, error: Option<string>, result: Option<Result>, finished: bool)

  datatype Ending =
    | ByReturn         // `_execute_tool` returned a recorded result
    | ByMissingTool    // it found no tool and returned without touching the row
    | ByHandler        // it raised, and the crash handler's UPDATE ran
    | ByLostRecord     // it raised, and so did the crash handler's UPDATE

  datatype Pc =
    | Announcing                 // row committed, `invocation_started` being published
    | Abandoned                  // that publish raised: no task was created
    | Loading
    | Validating
    | InSandbox
    | Finalising(result: Result)
    | Rejecting(error: string)
    | Recorded                   // the terminal UPDATE has run: commit, audit, publish
    | Crashed(error: string)     // in the runner's `except`
    | Interrupted                // cancelled at one of its own awaits, which no `except Exception` catches
    | Ended(how: Ending)

  datatype Job = Job(tool: string, row: Row, pc: Pc, history: seq<Status>)

  datatype State = State(tools: set<string>, jobs: seq<Job>)

  /** `fault` is the exception the step raises, if any. What the crash handler does
      not catch is a step of its own, `Interrupt`. */
  datatype Action =
    | Install(tool: string)
    | Remove(tool: string)     // hypothetical: nothing in the repository deletes a tool
    | Spawn(tool: string)
    | Announce(k: nat, fault: Option<string>)
    | Load(k: nat, fault: Option<string>)
    | Validate(k: nat, verdict: Option<string>, fault: Option<string>)
    | Sandbox(k: nat, result: Result, fault: Option<string>)
    | Record(k: nat, fault: Option<string>)
    | Publish(k: nat, fault: Option<string>)
    | Handle(k: nat, fault: Option<string>)
    | Interrupt(k: nat)        // CancelledError at an await of the job, as when the loop shuts down

  const Fresh: Row := Row(Running, None, None, false)

  function FailedRow(error: string): Row {
    Row(Failed, Some(error), Some(Result(Some(error), "")), true)
  }

  /** `_finalize_invocation`: an error that is present but empty counts as none. */
  function FinalRow(result: Result): Row {
    Row(if result.error.Some? && result.error.value != "" then Failed else Completed, result.error, Some(result), true)
  }

  /** The job has ended or was interrupted, or its spawner was before it began. */
  predicate Stopped(j: Job) {
    j.pc.Ended? || j.pc.Interrupted? || j.pc.Abandoned?
  }

  predicate Enabled(s: State, a: Action) {
    match a
    case Install(_) => true
    case Remove(_) => true
    case Spawn(_) => true
    case Announce(k, _) => k < |s.jobs| && s.jobs[k].pc.Announcing?
    case Load(k, _) => k < |s.jobs| && s.jobs[k].pc.Loading?
    case Validate(k, _, _) => k < |s.jobs| && s.jobs[k].pc.Validating?
    case Sandbox(k, _, _) => k < |s.jobs| && s.jobs[k].pc.InSandbox?
    case Record(k, _) => k < |s.jobs| && (s.jobs[k].pc.Finalising? || s.jobs[k].pc.Rejecting?)
    case Publish(k, _) => k < |s.jobs| && s.jobs[k].pc.Recorded?
    case Handle(k, _) => k < |s.jobs| && s.jobs[k].pc.Crashed?
    case Interrupt(k) => k < |s.jobs| && !s.jobs[k].pc.Announcing? && !Stopped(s.jobs[k])
  }

  /** Writes a row. */
  function Written(j: Job, row: Row): Job {
    j.(row := row, history := j.history + [row.status])
  }

  function Recording(j: Job): Row
    requires j.pc.Finalising? || j.pc.Rejecting?
  {
    if j.pc.Finalising? then FinalRow(j.pc.result) else FailedRow(j.pc.error)
  }

  /** UPDATE ... WHERE id = ? AND finished_at IS NULL. */
  function Handled(j: Job): Job
    requires j.pc.Crashed?
  {
    (if j.row.finished then j else Written(j, FailedRow(j.pc.error))).(pc := Ended(ByHandler))
  }

  /** What a step of job `j` makes of it. */
  function Moved(s: State, j: Job, a: Action): Job
    requires a.Announce? || a.Load? || a.Validate? || a.Sandbox? || a.Record? || a.Publish? || a.Handle? || a.Interrupt?
    requires a.Record? ==> j.pc.Finalising? || j.pc.Rejecting?
    requires a.Handle? ==> j.pc.Crashed?
  {
    if a.Interrupt? then j.(pc := Interrupted)
    else if a.Announce? then j.(pc := if a.fault.Some? then Abandoned else Loading)
    else if a.Handle? then (if a.fault.Some? then j.(pc := Ended(ByLostRecord)) else Handled(j))
    else if a.fault.Some? then j.(pc := Crashed(a.fault.value))
    else if a.Load? then j.(pc := if j.tool in s.tools then Validating else Ended(ByMissingTool))
    else if a.Validate? then j.(pc := if a.verdict.Some? then Rejecting(a.verdict.value) else InSandbox)
    else if a.Sandbox? then j.(pc := Finalising(a.result))
    else if a.Record? then Written(j, Recording(j)).(pc := Recorded)
    else j.(pc := Ended(ByReturn))
  }

  /** `_spawn_invocation` up to its publish. An unknown tool gets a finished row and
      no task. */
  function Spawned(s: State, tool: string): Job {
    if tool in s.tools then Job(tool, Fresh, Announcing, [Running])
    else Job(tool, FailedRow("Tool '" + tool + "' not found"), Ended(ByReturn), [Failed])
  }

  function Step(s: State, a: Action): State {
    if !Enabled(s, a) then s
    else
      match a
      case Install(tool) => s.(tools := s.tools + {tool})
      case Remove(tool) => s.(tools := s.tools - {tool})
      case Spawn(tool) => s.(jobs := s.jobs + [Spawned(s, tool)])
      case _ => s.(jobs := s.jobs[a.k := Moved(s, s.jobs[a.k], a)])
  }

  function Run(s: State, actions: seq<Action>): State {
    Runs.Run(Step, s, actions)
  }

  const Start: State := State({}, [])

  // ---------------------------------------------------------------------------
  // The invariant
  // ---------------------------------------------------------------------------

  /** Nothing has been recorded for the job yet. */
  predicate Open(j: Job) {
    j.row == Fresh && j.history == [Running]
  }

  /** The row is finished; it was `running` before, unless it was born finished. */
  predicate Closed(j: Job) {
    && j.row.finished && j.row.status != Running
    && (j.history == [Running, j.row.status] || (j.history == [Failed] && j.row.status == Failed))
  }

  predicate JobInv(j: Job) {
    match j.pc
    case Announcing => Open(j)
    case Abandoned => Open(j)
    case Loading => Open(j)
    case Validating => Open(j)
    case InSandbox => Open(j)
    case Finalising(_) => Open(j)
    case Rejecting(_) => Open(j)
    case Recorded => Closed(j)
    case Crashed(_) => Open(j) || Closed(j)
    case Interrupted => Open(j) || Closed(j)
    case Ended(how) =>
      if how.ByMissingTool? then Open(j)
      else if how.ByLostRecord? then Open(j) || Closed(j)
      else Closed(j)
  }

  ghost predicate Inv(s: State) {
    forall k :: 0 <= k < |s.jobs| ==> JobInv(s.jobs[k])
  }

  lemma StepKeepsInv(s: State, a: Action)
    requires Inv(s)
    ensures Inv(Step(s, a))
  {
  }

  lemma {:induction false} RunKeepsInv(s: State, actions: seq<Action>)
    requires Inv(s)
    ensures Inv(Run(s, actions))
  {
    if actions != [] {
      RunKeepsInv(s, actions[..|actions| - 1]);
      StepKeepsInv(Run(s, actions[..|actions| - 1]), actions[|actions| - 1]);
    }
  }

  // ---------------------------------------------------------------------------
  // What becomes of the row
  // ---------------------------------------------------------------------------

  /** Whatever raises, a spawned row is written at most once after its insert, and
      what is written is a terminal status. */
  lemma AtMostOneTerminalStatus(actions: seq<Action>, k: nat)
    requires k < |Run(Start, actions).jobs|
    ensures var j := Run(Start, actions).jobs[k];
      || j.history == [Running] || j.history == [Running, Completed] || j.history == [Running, Failed] || j.history == [Failed]
    ensures var j := Run(Start, actions).jobs[k];
      j.history[|j.history| - 1] == j.row.status && (j.row.finished <==> j.row.status != Running)
  {
    RunKeepsInv(Start, actions);
    assert JobInv(Run(Start, actions).jobs[k]);
  }

  /** Once finished, a row never changes: the crash handler's guard holds it off. */
  lemma {:induction false} FinishedIsFinal(s: State, actions: seq<Action>, k: nat)
    requires Inv(s) && k < |s.jobs| && s.jobs[k].row.finished
    ensures k < |Run(s, actions).jobs| && Run(s, actions).jobs[k].row == s.jobs[k].row
  {
    if actions != [] {
      var before := actions[..|actions| - 1];
      FinishedIsFinal(s, before, k);
      RunKeepsInv(s, before);
      assert JobInv(Run(s, before).jobs[k]);
    }
  }

  predicate OfJob(a: Action, k: nat) {
    !a.Install? && !a.Remove? && !a.Spawn? && a.k == k
  }

  /** The step that a job which has not stopped takes next. */
  function NextStep(j: Job, k: nat): Action
    requires !Stopped(j)
  {
    match j.pc
    case Announcing => Announce(k, None)
    case Loading => Load(k, None)
    case Validating => Validate(k, None, None)
    case InSandbox => Sandbox(k, Result(None, ""), None)
    case Recorded => Publish(k, None)
    case Crashed(_) => Handle(k, None)
    case _ => Record(k, None)
  }

  /** A job has stopped exactly when no step of its own is enabled. */
  lemma StoppedIffNoStep(s: State, k: nat)
    requires k < |s.jobs|
    ensures Stopped(s.jobs[k]) <==> forall a :: OfJob(a, k) ==> !Enabled(s, a)
  {
    if !Stopped(s.jobs[k]) {
      assert Enabled(s, NextStep(s.jobs[k], k)) && OfJob(NextStep(s.jobs[k], k), k);
    }
  }

  /** The terminal UPDATE of job `k` has run at some point. */
  predicate RecordRan(actions: seq<Action>, k: nat) {
    actions != [] &&
      var before, last := actions[..|actions| - 1], actions[|actions| - 1];
      RecordRan(before, k) || (last == Record(k, None) && Enabled(Run(Start, before), last))
  }

  /** Unless the crash handler wrote it or it was born so, a row is finished exactly
      if the terminal UPDATE has run. */
  lemma {:induction false} FinishedIffRecordRan(actions: seq<Action>, k: nat)
    ensures k >= |Run(Start, actions).jobs| ==> !RecordRan(actions, k)
    ensures k < |Run(Start, actions).jobs| ==>
      var j := Run(Start, actions).jobs[k];
      j.pc == Ended(ByHandler) || j.pc == Ended(ByReturn) || (j.row.finished <==> RecordRan(actions, k))
  {
    if actions != [] {
      var n := |actions| - 1;
      FinishedIffRecordRan(actions[..n], k);
      RunKeepsInv(Start, actions[..n]);
      if k < |Run(Start, actions[..n]).jobs| {
        assert JobInv(Run(Start, actions[..n]).jobs[k]);
      }
    }
  }

  /** A job that has no step left is `running`, and stays so whatever follows,
      exactly when its spawner was interrupted before it began, or it found its tool
      gone, or it was itself cancelled, or raised along with its crash handler,
      without its terminal UPDATE ever having run. */
  lemma RunningForEver(actions: seq<Action>, more: seq<Action>, k: nat)
    requires k < |Run(Start, actions).jobs| && Stopped(Run(Start, actions).jobs[k])
    ensures var pc := Run(Start, actions).jobs[k].pc;
      Run(Start, actions).jobs[k].row.status == Running
      <==> || pc.Abandoned? || pc == Ended(ByMissingTool)
           || ((pc.Interrupted? || pc == Ended(ByLostRecord)) && !RecordRan(actions, k))
    ensures k < |Run(Run(Start, actions), more).jobs| && Run(Run(Start, actions), more).jobs[k] == Run(Start, actions).jobs[k]
  {
    RunKeepsInv(Start, actions);
    assert JobInv(Run(Start, actions).jobs[k]);
    FinishedIffRecordRan(actions, k);
    StoppedStays(Run(Start, actions), more, k);
  }

  lemma {:induction false} StoppedStays(s: State, actions: seq<Action>, k: nat)
    requires k < |s.jobs| && Stopped(s.jobs[k])
    ensures k < |Run(s, actions).jobs| && Run(s, actions).jobs[k] == s.jobs[k]
  {
    if actions != [] {
      StoppedStays(s, actions[..|actions| - 1], k);
    }
  }

  // ---------------------------------------------------------------------------
  // What the row says
  // ---------------------------------------------------------------------------

  /** What the run has brought job `k`: the validator's objection, the tool's result, the
      last exception of its phases, and whether its terminal UPDATE has run. */
  datatype Heard = Heard(verdict: Option<string>, result: Option<Result>, fault: Option<string>, recorded: bool)

  /** What an action that takes place adds to that. */
  function Hear(h: Heard, a: Action, k: nat): Heard {
    if a.Install? || a.Remove? || a.Spawn? || a.Interrupt? || a.Announce? || a.Handle? || a.k != k then h
    else if a.fault.Some? then h.(fault := a.fault)
    else if a.Validate? && a.verdict.Some? then h.(verdict := a.verdict)
    else if a.Sandbox? then h.(result := Some(a.result))
    else if a.Record? then h.(recorded := true)
    else h
  }

  function HeardBy(actions: seq<Action>, k: nat): Heard {
    if actions == [] then Heard(None, None, None, false)
    else
      var before, last := actions[..|actions| - 1], actions[|actions| - 1];
      if Enabled(Run(Start, before), last) then Hear(HeardBy(before, k), last, k) else HeardBy(before, k)
  }

  /** The row says what was recorded: an objection as an error; a result with its error,
      as failed exactly if that error is there and not empty. */
  predicate SaysRecorded(row: Row, h: Heard) {
    && row.finished
    && if h.verdict.Some? then
         row.status == Failed && row.error == h.verdict && row.result == Some(Result(h.verdict, ""))
       else
         && h.result.Some? && row.result == h.result && row.error == h.result.value.error
         && (row.status == Failed <==> h.result.value.error != None && h.result.value.error != Some(""))
         && (row.status == Completed <==> h.result.value.error == None || h.result.value.error == Some(""))
  }

  predicate SaysCrashed(row: Row, h: Heard) {
    row.finished && row.status == Failed && h.fault.Some? && row.error == h.fault && row.result == Some(Result(h.fault, ""))
  }

  ghost predicate HeardFits(j: Job, h: Heard) {
    && (h.recorded ==> SaysRecorded(j.row, h))
    && (j.pc.Announcing? || j.pc.Abandoned? || j.pc.Loading? || j.pc.Validating? || j.pc.InSandbox? ==>
          !h.recorded && h.verdict == None && h.result == None)
    && (j.pc.Finalising? ==> !h.recorded && h.verdict == None && h.result == Some(j.pc.result))
    && (j.pc.Rejecting? ==> !h.recorded && h.verdict == Some(j.pc.error))
    && (j.pc.Recorded? ==> h.recorded)
    && (j.pc.Crashed? ==> h.fault == Some(j.pc.error) && (h.recorded <==> j.row.finished))
    && (j.pc == Ended(ByHandler) && !h.recorded ==> SaysCrashed(j.row, h))
  }

  lemma HeardStep(s: State, a: Action, k: nat, h: Heard)
    requires Inv(s) && Enabled(s, a) && k < |s.jobs| && HeardFits(s.jobs[k], h)
    ensures HeardFits(Step(s, a).jobs[k], Hear(h, a, k))
  {
    assert JobInv(s.jobs[k]);
  }

  lemma {:induction false} HeardFitsRun(actions: seq<Action>, k: nat)
    ensures var s := Run(Start, actions);
      if k < |s.jobs| then HeardFits(s.jobs[k], HeardBy(actions, k)) else HeardBy(actions, k) == Heard(None, None, None, false)
  {
    if actions != [] {
      var before, last := actions[..|actions| - 1], actions[|actions| - 1];
      HeardFitsRun(before, k);
      RunKeepsInv(Start, before);
      if Enabled(Run(Start, before), last) && k < |Run(Start, before).jobs| {
        HeardStep(Run(Start, before), last, k, HeardBy(before, k));
      }
    }
  }

  /** In every run, whatever raises or is cancelled: once its terminal UPDATE has run, a
      row says what the validator or the tool said; a row that the crash handler wrote
      says what the last phase raised. */
  lemma {:induction false} RowSaysWhatHappened(actions: seq<Action>, k: nat)
    requires k < |Run(Start, actions).jobs|
    ensures var j, h := Run(Start, actions).jobs[k], HeardBy(actions, k);
      && (h.recorded ==> SaysRecorded(j.row, h))
      && (j.pc == Ended(ByHandler) && !h.recorded ==> SaysCrashed(j.row, h))
  {
    HeardFitsRun(actions, k);
  }

  predicate NothingRemoved(actions: seq<Action>) {
    forall a <- actions :: !a.Remove?
  }

  ghost predicate ToolsThere(s: State) {
    forall k :: 0 <= k < |s.jobs| ==>
      (s.jobs[k].pc.Announcing? || s.jobs[k].pc.Loading? ==> s.jobs[k].tool in s.tools) && s.jobs[k].pc != Ended(ByMissingTool)
  }

  lemma {:induction false} ToolsStayThere(actions: seq<Action>)
    requires NothingRemoved(actions)
    ensures ToolsThere(Run(Start, actions))
  {
    if actions != [] {
      var n := |actions| - 1;
      assert NothingRemoved(actions[..n]);
      ToolsStayThere(actions[..n]);
      assert actions[n] in actions;
    }
  }

  /** With a tools table that only grows, every job that ends by returning or through
      its crash handler leaves a terminal status. */
  lemma EveryJobIsRecorded(actions: seq<Action>, k: nat)
    requires NothingRemoved(actions) && k < |Run(Start, actions).jobs|
    requires Run(Start, actions).jobs[k].pc.Ended? && !Run(Start, actions).jobs[k].pc.how.ByLostRecord?
    ensures var j := Run(Start, actions).jobs[k]; j.row.finished && j.row.status != Running
  {
    RunKeepsInv(Start, actions);
    ToolsStayThere(actions);
    assert JobInv(Run(Start, actions).jobs[k]);
  }

  /** In the repository as it is, where tools are never removed, only the interrupted
      spawner, the interrupted job and the failed recording are left. */
  lemma RunningForEverWithGrowingTools(actions: seq<Action>, k: nat)
    requires NothingRemoved(actions) && k < |Run(Start, actions).jobs| && Stopped(Run(Start, actions).jobs[k])
    ensures var pc := Run(Start, actions).jobs[k].pc;
      Run(Start, actions).jobs[k].row.status == Running
      <==> pc.Abandoned? || ((pc.Interrupted? || pc == Ended(ByLostRecord)) && !RecordRan(actions, k))
  {
    RunningForEver(actions, [], k);
    ToolsStayThere(actions);
  }

  /** The spawner's publish is interrupted between the commit of the row and the
      creation of the background job: no statement failed, nothing will ever touch
      the row, and it says `running` in every continuation. */
  lemma LeftRunning(tool: string, more: seq<Action>)
    ensures var s := Run(Start, [Install(tool), Spawn(tool), Announce(0, Some("cancelled"))]);
      && NothingRemoved([Install(tool), Spawn(tool), Announce(0, Some("cancelled"))])
      && s.jobs == [Job(tool, Fresh, Abandoned, [Running])]
      && |Run(s, more).jobs| > 0 && Run(s, more).jobs[0].row.status == Running
  {
    var cut := [Install(tool), Spawn(tool), Announce(0, Some("cancelled"))];
    assert cut[..2] == [Install(tool), Spawn(tool)] && cut[..2][..1] == [Install(tool)] && cut[..1][..0] == [];
    assert Run(Start, cut[..1]) == Step(Run(Start, []), Install(tool));
    assert Run(Start, cut[..1]) == State({tool}, []);
    var spawned := Step(State({tool}, []), Spawn(tool));
    assert cut[..2][..1] == cut[..1] && Run(Start, cut[..2]) == Step(Run(Start, cut[..1]), cut[..2][1]);
    assert Run(Start, cut[..2]) == spawned;
    assert spawned.jobs == [Job(tool, Fresh, Announcing, [Running])];
    assert Run(Start, cut) == Step(spawned, cut[2]);
    RunningForEver(cut, more, 0);
  }

  /** The job itself is cancelled at its first await: nothing catches that, and the row
      says `running` in every continuation. */
  lemma CancelledJobLeftRunning(tool: string, more: seq<Action>)
    ensures var cut := [Install(tool), Spawn(tool), Announce(0, None), Interrupt(0)];
      var s := Run(Start, cut);
      && NothingRemoved(cut) && s.jobs == [Job(tool, Fresh, Interrupted, [Running])]
      && |Run(s, more).jobs| > 0 && Run(s, more).jobs[0].row.status == Running
  {
    var cut := [Install(tool), Spawn(tool), Announce(0, None), Interrupt(0)];
    Runs.RunFour(Step, Start, Install(tool), Spawn(tool), Announce(0, None), Interrupt(0));
    assert Step(Start, Install(tool)) == State({tool}, []);
    var spawned := Step(State({tool}, []), Spawn(tool));
    assert spawned.jobs == [Job(tool, Fresh, Announcing, [Running])];
    assert Step(spawned, Announce(0, None)).jobs == [Job(tool, Fresh, Loading, [Running])];
    RunningForEver(cut, more, 0);
  }

  /** The hypothetical case: should a tool ever be removed before its job loads it,
      the job returns without touching its row. */
  lemma MissingToolLeavesRow(s: State, k: nat, tool: string)
    requires k < |s.jobs| && s.jobs[k].pc.Loading? && s.jobs[k].tool == tool
    ensures var t := Step(Step(s, Remove(tool)), Load(k, None));
      t.jobs[k].row == s.jobs[k].row && t.jobs[k].pc == Ended(ByMissingTool)
  {
  }
}
