/** The background task of `_spawn_invocation`, phase by phase as routes/tools.py
    writes it: `_execute_tool` takes over a pre-inserted row, and `_runner` catches
    whatever it raises. Other tasks take steps of `Invocation` at every await. */
module InvocationRunner {
  import opened Common
  import opened Invocation
  import Runs

  /** Steps that are not job `k`'s. */
  predicate NotOf(actions: seq<Action>, k: nat) {
    forall a <- actions :: a.Install? || a.Remove? || a.Spawn? || a.k != k
  }

  lemma {:induction false} OthersLeaveJob(s: State, actions: seq<Action>, k: nat)
    requires NotOf(actions, k) && k < |s.jobs|
    ensures k < |Run(s, actions).jobs| && Run(s, actions).jobs[k] == s.jobs[k]
  {
    if actions != [] {
      var n := |actions| - 1;
      assert NotOf(actions[..n], k);
      OthersLeaveJob(s, actions[..n], k);
      assert actions[n] in actions;
    }
  }

  /** What the world does to one task that is not cancelled: what each phase raises, the
      validator's verdict, the tool's result, and what other tasks do at each await. */
  datatype World = World(atLoad: seq<Action>, loadFault: Option<string>,
                         verdict: Option<string>, validateFault: Option<string>,
                         atSandbox: seq<Action>, result: Result, sandboxFault: Option<string>,
                         atRecord: seq<Action>, recordFault: Option<string>,
                         atPublish: seq<Action>, publishFault: Option<string>,
                         atHandle: seq<Action>, handleFault: Option<string>)

  predicate Awaits(w: World, k: nat) {
    NotOf(w.atLoad, k) && NotOf(w.atSandbox, k) && NotOf(w.atRecord, k) && NotOf(w.atPublish, k) && NotOf(w.atHandle, k)
  }

  /** The exception that ends `_execute_tool` before its terminal UPDATE has run. */
  function EarlyFault(w: World): Option<string> {
    if w.loadFault.Some? then w.loadFault
    else if w.validateFault.Some? then w.validateFault
    else if w.verdict.None? && w.sandboxFault.Some? then w.sandboxFault
    else w.recordFault
  }

  /** The row a task leaves behind when its tool is there. */
  function LeftBehind(w: World): Row {
    if EarlyFault(w).Some? && w.handleFault.Some? then Row(Running, None, None, false)
    else if EarlyFault(w).Some? then Row(Failed, EarlyFault(w), Some(Result(EarlyFault(w), "")), true)
    else if w.verdict.Some? then Row(Failed, w.verdict, Some(Result(w.verdict, "")), true)
    else Row(if w.result.error == None || w.result.error == Some("") then Completed else Failed, w.result.error, Some(w.result), true)
  }

  class Server {
    var tools: set<string>
    var jobs: seq<Job>

    function View(): State
      reads this
    {
      State(tools, jobs)
    }

    constructor ()
      ensures View() == Start
    {
      tools, jobs := {}, [];
    }

    method Await(actions: seq<Action>, k: nat, ghost origin: State)
      requires NotOf(actions, k) && k < |jobs| && Runs.Reaches(Step, origin, View())
      modifies this
      ensures Runs.Reaches(Step, origin, View()) && k < |jobs| && jobs[k] == old(jobs)[k]
    {
      OthersLeaveJob(View(), actions, k);
      Runs.ReachesRun(Step, origin, View(), actions);
      var after := Run(View(), actions);
      tools, jobs := after.tools, after.jobs;
    }

    /** `_spawn_invocation` up to the publish. */
    method SpawnInvocation(tool: string) returns (id: nat)
      modifies this`jobs
      ensures View() == Step(old(View()), Action.Spawn(tool)) && id == |old(jobs)| == |jobs| - 1
      ensures jobs[id].pc.Announcing? <==> tool in tools
      ensures var error := "Tool '" + tool + "' not found";
        jobs[id].row == if tool in tools then Row(Running, None, None, false)
                        else Row(Failed, Some(error), Some(Result(Some(error), "")), true)
    {
      id := |jobs|;
      if tool !in tools {
        jobs := jobs + [Job(tool, FailedRow("Tool '" + tool + "' not found"), Ended(ByReturn), [Failed])];
        return;
      }
      jobs := jobs + [Job(tool, Row(Running, None, None, false), Announcing, [Running])];
    }

    /** An exception leaves `_execute_tool`. */
    method Throw(k: nat, error: string)
      requires k < |jobs|
      modifies this`jobs
      ensures jobs == old(jobs)[k := old(jobs)[k].(pc := Crashed(error))]
    {
      jobs := jobs[k := jobs[k].(pc := Crashed(error))];
    }

    /** `_load_tool_and_manifest`. */
    method LoadTool(k: nat, w: World) returns (found: bool)
      requires k < |jobs| && jobs[k].pc.Loading?
      modifies this`jobs
      ensures View() == Step(old(View()), Load(k, w.loadFault))
      ensures found == (w.loadFault.None? && jobs[k].tool in tools)
    {
      if w.loadFault.Some? {
        Throw(k, w.loadFault.value);
        return false;
      }
      found := jobs[k].tool in tools;
      jobs := jobs[k := jobs[k].(pc := if found then Validating else Ended(ByMissingTool))];
    }

    /** `_validate_args`. */
    method ValidateArgs(k: nat, w: World)
      requires k < |jobs| && jobs[k].pc.Validating?
      modifies this`jobs
      ensures View() == Step(old(View()), Validate(k, w.verdict, w.validateFault))
    {
      if w.validateFault.Some? {
        Throw(k, w.validateFault.value);
      } else {
        jobs := jobs[k := jobs[k].(pc := if w.verdict.Some? then Rejecting(w.verdict.value) else InSandbox)];
      }
    }

    /** `_run_in_sandbox`. */
    method RunInSandbox(k: nat, w: World)
      requires k < |jobs| && jobs[k].pc.InSandbox?
      modifies this`jobs
      ensures View() == Step(old(View()), Sandbox(k, w.result, w.sandboxFault))
    {
      if w.sandboxFault.Some? {
        Throw(k, w.sandboxFault.value);
      } else {
        jobs := jobs[k := jobs[k].(pc := Finalising(w.result))];
      }
    }

    /** The UPDATE of `_record_validation_failure` or of `_finalize_invocation`. */
    method RecordRow(k: nat, w: World)
      requires k < |jobs| && (jobs[k].pc.Rejecting? || jobs[k].pc.Finalising?)
      modifies this`jobs
      ensures View() == Step(old(View()), Record(k, w.recordFault))
    {
      if w.recordFault.Some? {
        Throw(k, w.recordFault.value);
        return;
      }
      var j := jobs[k];
      var row := j.row;
      if j.pc.Rejecting? {
        row := Row(Failed, Some(j.pc.error), Some(Result(Some(j.pc.error), "")), true);
      } else {
        var error := j.pc.result.error;
        var status := if error.Some? && error.value != "" then Failed else Completed;
        row := Row(status, error, Some(j.pc.result), true);
      }
      jobs := jobs[k := Written(j, row).(pc := Recorded)];
    }

    /** Commit, audit entry and completion event. */
    method PublishCompleted(k: nat, w: World)
      requires k < |jobs| && jobs[k].pc.Recorded?
      modifies this`jobs
      ensures View() == Step(old(View()), Publish(k, w.publishFault))
    {
      if w.publishFault.Some? {
        Throw(k, w.publishFault.value);
      } else {
        jobs := jobs[k := jobs[k].(pc := Ended(ByReturn))];
      }
    }

    /** The crash handler: UPDATE ... WHERE id = ? AND finished_at IS NULL. */
    method RecordCrash(k: nat, w: World)
      requires k < |jobs| && jobs[k].pc.Crashed?
      modifies this`jobs
      ensures View() == Step(old(View()), Handle(k, w.handleFault))
    {
      var j := jobs[k];
      if w.handleFault.Some? {
        jobs := jobs[k := j.(pc := Ended(ByLostRecord))];
        return;
      }
      if !j.row.finished {
        j := Written(j, FailedRow(j.pc.error));
      }
      jobs := jobs[k := j.(pc := Ended(ByHandler))];
    }

    /** `_execute_tool` from the terminal UPDATE on. */
    method Finish(k: nat, w: World, ghost origin: State)
      requires Runs.Reaches(Step, origin, View()) && Awaits(w, k)
      requires k < |jobs| && (jobs[k].pc.Rejecting? || jobs[k].pc.Finalising?)
      modifies this
      ensures Runs.Reaches(Step, origin, View()) && k < |jobs|
      ensures jobs[k].row == if w.recordFault.Some? then old(jobs)[k].row else Recording(old(jobs)[k])
      ensures jobs[k].pc == if w.recordFault.Some? then Crashed(w.recordFault.value)
                            else if w.publishFault.Some? then Crashed(w.publishFault.value) else Ended(ByReturn)
    {
      Await(w.atRecord, k, origin);
      Runs.ReachesNext(Step, origin, View(), Record(k, w.recordFault));
      RecordRow(k, w);
      if w.recordFault.None? {
        Await(w.atPublish, k, origin);
        Runs.ReachesNext(Step, origin, View(), Publish(k, w.publishFault));
        PublishCompleted(k, w);
      }
    }

    /** `_execute_tool` once the tool is loaded. */
    method Execute(k: nat, w: World, ghost origin: State)
      requires Runs.Reaches(Step, origin, View()) && Awaits(w, k) && w.loadFault.None?
      requires k < |jobs| && jobs[k].pc.Validating? && jobs[k].row == Fresh
      modifies this
      ensures Runs.Reaches(Step, origin, View()) && k < |jobs|
      ensures EarlyFault(w).Some? ==> jobs[k].row == Fresh && jobs[k].pc == Crashed(EarlyFault(w).value)
      ensures EarlyFault(w).None? ==>
        jobs[k].row == LeftBehind(w)
        && jobs[k].pc == if w.publishFault.Some? then Crashed(w.publishFault.value) else Ended(ByReturn)
    {
      Runs.ReachesNext(Step, origin, View(), Validate(k, w.verdict, w.validateFault));
      ValidateArgs(k, w);
      if w.validateFault.Some? {
        return;
      }
      if w.verdict.None? {
        Await(w.atSandbox, k, origin);
        Runs.ReachesNext(Step, origin, View(), Sandbox(k, w.result, w.sandboxFault));
        RunInSandbox(k, w);
        if w.sandboxFault.Some? {
          return;
        }
      }
      Finish(k, w, origin);
    }

    /** `_execute_tool`; it raised if it leaves the job crashed. */
    method ExecuteTool(k: nat, w: World, ghost origin: State) returns (found: bool)
      requires Runs.Reaches(Step, origin, View()) && Awaits(w, k)
      requires k < |jobs| && jobs[k].pc.Loading? && jobs[k].row == Fresh
      modifies this
      ensures Runs.Reaches(Step, origin, View()) && k < |jobs|
      ensures !found ==> w.loadFault.None? && jobs[k].row == Fresh && jobs[k].pc == Ended(ByMissingTool)
      ensures found && EarlyFault(w).Some? ==> jobs[k].row == Fresh && jobs[k].pc == Crashed(EarlyFault(w).value)
      ensures found && EarlyFault(w).None? ==>
        jobs[k].row == LeftBehind(w)
        && jobs[k].pc == if w.publishFault.Some? then Crashed(w.publishFault.value) else Ended(ByReturn)
    {
      Await(w.atLoad, k, origin);
      Runs.ReachesNext(Step, origin, View(), Load(k, w.loadFault));
      found := LoadTool(k, w);
      if !found {
        found := w.loadFault.Some?;
        return;
      }
      Execute(k, w, origin);
    }

    /** `_runner`: whatever the phases raise and whatever other tasks do meanwhile,
        the row it leaves is the one the world's answers determine. */
    method RunJob(k: nat, w: World) returns (found: bool)
      requires Awaits(w, k) && k < |jobs| && jobs[k].pc.Loading? && jobs[k].row == Fresh
      modifies this
      ensures Runs.Reaches(Step, old(View()), View()) && k < |jobs| && jobs[k].pc.Ended?
      ensures jobs[k].row == if found then LeftBehind(w) else Fresh
      ensures !found <==> jobs[k].pc.how.ByMissingTool?
    {
      ghost var origin := View();
      Runs.ReachesSelf(Step, origin);
      found := ExecuteTool(k, w, origin);
      if jobs[k].pc.Crashed? {
        Await(w.atHandle, k, origin);
        Runs.ReachesNext(Step, origin, View(), Handle(k, w.handleFault));
        RecordCrash(k, w);
      }
    }
  }
}
