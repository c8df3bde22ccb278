/** Waiting for a permission request to be resolved: `await_permission` and
    `notify_resolved` of permissions_runtime.py against `resolve_permission` of
    routes/permissions.py, for one request.

    The whole process shares one SQLite connection, so a statement is visible to
    every coroutine as soon as it has run, and any coroutine's commit commits it. */
module PermissionWait {
  import opened Common
  import Runs

  const PENDING: string := "pending"
  const ALWAYS: string := "allow_always"

  /** An asyncio event together with its status box. */
  datatype Slot = Slot(isSet: bool, box: string)

  datatype AwaiterPc =
    | NotArrived
    | Checking(slot: nat)      // slot taken, first read of the row under way
    | Waiting(slot: nat)       // inside `wait_for`
    | Rereading                // second read under way
    | Returned(status: string)
    | RaisedEarly(slot: nat)   // an exception left the coroutine before its `try`
    | Raised                   // or later

  datatype ResolverPc =
    | Idle
    | Checked(action: string)
    | Updated(action: string)
    | Inserted(action: string)
    | Committed(action: string)
    | Notified(action: string)
    | Refused                  // 404, 400, or an exception before the UPDATE
    | Failed(action: string)   // an exception after the UPDATE

  /** `row` is what a SELECT on the connection sees, `saved` what is committed;
      `grant` and `savedGrant` say the same of the standing grant. `slots` is every
      slot ever made, `registered` the one `_waiters` holds. */
  datatype State = State(row: Option<string>, saved: Option<string>, grant: bool, savedGrant: bool,
                         slots: seq<Slot>, registered: Option<nat>, timers: nat,
                         awaiter: AwaiterPc, resolver: ResolverPc)

  datatype Action =
    | Arrive | Check | Wake | TimeOut | Reread | Raise
    | ReadRequest(action: string) | Update | Insert | Commit | Notify | Fail
    | OtherCommit
    | TimerFires

  function Start(row: Option<string>): State {
    State(row, row, false, false, [], None, 0, NotArrived, Idle)
  }

  /** The column's value, read through `or "pending"`. */
  function Effective(row: Option<string>): string {
    if row.None? || row.value == "" then PENDING else row.value
  }

  /** The status `resolve_permission` writes. */
  function StatusOf(action: string): string {
    if action == "deny" then "denied" else ReplaceAll(action, "allow_", "granted_")
  }

  predicate Enabled(s: State, a: Action) {
    match a
    case Arrive => s.awaiter.NotArrived?
    case Check => s.awaiter.Checking?
    case Wake => s.awaiter.Waiting? && s.awaiter.slot < |s.slots| && s.slots[s.awaiter.slot].isSet
    case TimeOut => s.awaiter.Waiting? && s.awaiter.slot < |s.slots|
    case Reread => s.awaiter.Rereading?
    case Raise => s.awaiter.Checking? || s.awaiter.Waiting? || s.awaiter.Rereading?
    case ReadRequest(_) => s.resolver.Idle?
    case Update => s.resolver.Checked?
    case Insert => s.resolver.Updated? && s.resolver.action == ALWAYS
    case Commit => s.resolver.Inserted? || (s.resolver.Updated? && s.resolver.action != ALWAYS)
    case Notify => s.resolver.Committed?
    case Fail => s.resolver.Checked? || s.resolver.Updated? || s.resolver.Inserted? || s.resolver.Committed?
    case OtherCommit => true
    case TimerFires => s.timers > 0
  }

  /** `_slot`. */
  function Taken(s: State): (t: State)
    ensures t.registered.Some? && |s.slots| <= |t.slots|
  {
    if s.registered.Some? && s.registered.value < |s.slots| then s
    else s.(slots := s.slots + [Slot(false, "")], registered := Some(|s.slots|))
  }

  /** What follows the first read. */
  function AfterCheck(s: State): State
    requires s.awaiter.Checking?
  {
    if Effective(s.row) != PENDING then s.(registered := None, awaiter := Returned(Effective(s.row)))
    else s.(awaiter := Waiting(s.awaiter.slot))
  }

  /** What follows `wait_for`, whether it returned or timed out. */
  function AfterWait(s: State): State
    requires s.awaiter.Waiting? && s.awaiter.slot < |s.slots|
  {
    var box := s.slots[s.awaiter.slot].box;
    s.(registered := None, awaiter := if box != "" then Returned(box) else Rereading)
  }

  /** `notify_resolved`. */
  function Told(s: State): State
    requires s.resolver.Committed?
  {
    var t := Taken(s);
    var i := t.registered.value;
    t.(slots := if i < |t.slots| then t.slots[i := Slot(true, StatusOf(s.resolver.action))] else t.slots,
       timers := t.timers + 1, resolver := Notified(s.resolver.action))
  }

  function Step(s: State, a: Action): State {
    if !Enabled(s, a) then s
    else
      match a
      case Arrive => var t := Taken(s); t.(awaiter := Checking(t.registered.value))
      case Check => AfterCheck(s)
      case Wake => AfterWait(s)
      case TimeOut => AfterWait(s)
      case Reread => s.(awaiter := Returned(Effective(s.row)))
      case Raise => if s.awaiter.Checking? then s.(awaiter := RaisedEarly(s.awaiter.slot))
                    else s.(registered := if s.awaiter.Waiting? then None else s.registered, awaiter := Raised)
      case ReadRequest(action) => s.(resolver := if s.row == Some(PENDING) then Checked(action) else Refused)
      case Update => s.(row := Some(StatusOf(s.resolver.action)), resolver := Updated(s.resolver.action))
      case Insert => s.(grant := true, resolver := Inserted(s.resolver.action))
      case Commit => s.(saved := s.row, savedGrant := s.grant, resolver := Committed(s.resolver.action))
      case Notify => Told(s)
      case Fail => s.(resolver := if s.resolver.Checked? then Refused else Failed(s.resolver.action))
      case OtherCommit => s.(saved := s.row, savedGrant := s.grant)
      case TimerFires => s.(registered := None, timers := s.timers - 1)
  }

  function Run(s: State, actions: seq<Action>): State {
    Runs.Run(Step, s, actions)
  }

  // ---------------------------------------------------------------------------
  // The invariant
  // ---------------------------------------------------------------------------

  predicate Ended(pc: AwaiterPc) {
    pc.Returned? || pc.RaisedEarly? || pc.Raised?
  }

  /** The slot the awaiter has taken and has not popped. */
  function Held(pc: AwaiterPc): Option<nat> {
    if pc.Checking? || pc.Waiting? || pc.RaisedEarly? then Some(pc.slot) else None
  }

  /** The resolver's UPDATE has run. */
  predicate Resolved(s: State) {
    s.resolver.Updated? || s.resolver.Inserted? || s.resolver.Committed? || s.resolver.Notified? || s.resolver.Failed?
  }

  ghost predicate RowInv(s: State) {
    && (s.resolver.Checked? ==> s.row == Some(PENDING))
    && (Resolved(s) ==> s.row == Some(StatusOf(s.resolver.action)))
    && (!Resolved(s) ==> s.saved == s.row && !s.grant && !s.savedGrant)
    && (s.resolver.Updated? ==> !s.grant)
    && (s.resolver.Committed? || s.resolver.Notified? ==> s.saved == s.row && s.savedGrant == s.grant)
    && (s.savedGrant ==> s.grant && s.saved == s.row)
    && (s.resolver.Inserted? || s.resolver.Committed? || s.resolver.Notified? ==> (s.grant <==> s.resolver.action == ALWAYS))
  }

  ghost predicate SlotInv(s: State) {
    && (s.registered.Some? ==> s.registered.value < |s.slots|)
    && (Held(s.awaiter).Some? ==> Held(s.awaiter).value < |s.slots|)
    && (s.registered.Some? ==> s.timers > 0 || Held(s.awaiter) == s.registered)
  }

  ghost predicate NotifyInv(s: State) {
    if !s.resolver.Notified? then
      && s.timers == 0
      && (forall i: nat :: i < |s.slots| ==> s.slots[i] == Slot(false, ""))
      && (Held(s.awaiter).Some? ==> s.registered == Held(s.awaiter))
    else
      var status := StatusOf(s.resolver.action);
      && s.timers <= 1
      && (s.timers > 0 && s.awaiter.NotArrived? ==> s.registered.Some?)
      && (s.registered.Some? && s.registered.value < |s.slots| ==>
            (s.slots[s.registered.value].isSet <==> s.timers > 0))
      && (Held(s.awaiter).Some? && Held(s.awaiter).value < |s.slots| && !s.slots[Held(s.awaiter).value].isSet ==>
            s.registered == Held(s.awaiter))
      && (forall i: nat :: i < |s.slots| ==> s.slots[i] == Slot(false, "") || s.slots[i] == Slot(true, status))
      && (s.awaiter.Waiting? && s.awaiter.slot < |s.slots| && Effective(Some(status)) != PENDING ==>
            s.slots[s.awaiter.slot] == Slot(true, status))
  }

  ghost predicate AnswerInv(s: State) {
    s.awaiter.Returned? && s.awaiter.status != PENDING ==> s.row == Some(s.awaiter.status)
  }

  ghost predicate Inv(s: State) {
    RowInv(s) && SlotInv(s) && NotifyInv(s) && AnswerInv(s)
  }

  lemma WaitKeepsInv(s: State)
    requires Inv(s) && s.awaiter.Waiting?
    ensures Inv(AfterWait(s))
  {
  }

  lemma ArriveKeepsInv(s: State)
    requires Inv(s) && Enabled(s, Arrive)
    ensures Inv(Step(s, Arrive))
  {
  }

  lemma CheckKeepsInv(s: State)
    requires Inv(s) && Enabled(s, Check)
    ensures Inv(Step(s, Check))
  {
  }

  lemma RereadOrRaiseKeepsInv(s: State, a: Action)
    requires Inv(s) && Enabled(s, a) && (a.Reread? || a.Raise?)
    ensures Inv(Step(s, a))
  {
  }

  lemma ResolverKeepsInv(s: State, a: Action)
    requires Inv(s) && Enabled(s, a) && (a.ReadRequest? || a.Update? || a.Insert? || a.Commit? || a.Fail?)
    ensures Inv(Step(s, a))
  {
  }

  lemma StepKeepsInv(s: State, a: Action)
    requires Inv(s)
    ensures Inv(Step(s, a))
  {
    if Enabled(s, a) {
      if a.Wake? || a.TimeOut? {
        WaitKeepsInv(s);
      } else if a.Notify? {
        NotifyKeepsInv(s);
      } else if a.OtherCommit? || a.TimerFires? {
      } else if a.Arrive? {
        ArriveKeepsInv(s);
      } else if a.Check? {
        CheckKeepsInv(s);
      } else if a.Reread? || a.Raise? {
        RereadOrRaiseKeepsInv(s, a);
      } else {
        ResolverKeepsInv(s, a);
      }
    }
  }

  lemma NotifyKeepsInv(s: State)
    requires Inv(s) && s.resolver.Committed?
    ensures Inv(Told(s))
  {
    var t, taken := Told(s), Taken(s);
    assert forall i: nat :: i < |taken.slots| ==> taken.slots[i] == Slot(false, "");
    assert forall i: nat :: i < |t.slots| ==>
      t.slots[i] == Slot(false, "") || t.slots[i] == Slot(true, StatusOf(s.resolver.action));
  }

  lemma {:induction false} RunKeepsInv(s: State, actions: seq<Action>)
    requires Inv(s)
    ensures Inv(Run(s, actions))
  {
    if actions != [] {
      var before := actions[..|actions| - 1];
      RunKeepsInv(s, before);
      StepKeepsInv(Run(s, before), actions[|actions| - 1]);
    }
  }

  /** A state of some run. */
  ghost predicate Live(s: State) {
    exists row, actions :: s == Run(Start(row), actions)
  }

  lemma LiveInv(s: State)
    requires Live(s)
    ensures Inv(s)
  {
    var row, actions :| s == Run(Start(row), actions);
    RunKeepsInv(Start(row), actions);
  }

  // ---------------------------------------------------------------------------
  // What the awaiter may return
  // ---------------------------------------------------------------------------

  /** `a` is the step in which `await_permission` returns `status`. */
  predicate Returns(s: State, a: Action, status: string) {
    !s.awaiter.Returned? && Step(s, a).awaiter == Returned(status)
  }

  /** "pending" is returned only while the request still is: no resolution with a
      real status has run its UPDATE by then, so none is slept through. */
  lemma PendingIsHonest(s: State, a: Action)
    requires Live(s) && Returns(s, a, PENDING)
    ensures Effective(s.row) == PENDING
    ensures Resolved(s) ==> Effective(Some(StatusOf(s.resolver.action))) == PENDING
  {
    LiveInv(s);
  }

  lemma StepKeepsRow(s: State, a: Action)
    requires RowInv(s) && Effective(s.row) != PENDING
    ensures Step(s, a).row == s.row
  {
  }

  lemma {:induction false} RowIsFinal(s: State, actions: seq<Action>)
    requires Inv(s) && Effective(s.row) != PENDING
    ensures Run(s, actions).row == s.row && Inv(Run(s, actions))
  {
    if actions != [] {
      var before, last := actions[..|actions| - 1], actions[|actions| - 1];
      RowIsFinal(s, before);
      StepKeepsRow(Run(s, before), last);
      StepKeepsInv(Run(s, before), last);
    }
  }

  /** Any other status is the row's final one, now and in every later state. */
  lemma AnswerIsFinal(s: State, actions: seq<Action>)
    requires Live(s) && s.awaiter.Returned? && s.awaiter.status != PENDING
    ensures Run(s, actions).row == Some(s.awaiter.status)
  {
    LiveInv(s);
    if s.awaiter.status == "" {
      EmptyIsNeverReturned(s);
    }
    RowIsFinal(s, actions);
  }

  lemma EmptyIsNeverReturned(s: State)
    requires Live(s)
    ensures s.awaiter != Returned("")
  {
    var row, actions :| s == Run(Start(row), actions);
    EmptyIsNeverReturnedIn(row, actions);
  }

  lemma {:induction false} EmptyIsNeverReturnedIn(row: Option<string>, actions: seq<Action>)
    ensures Run(Start(row), actions).awaiter != Returned("")
  {
    if actions != [] {
      EmptyIsNeverReturnedIn(row, actions[..|actions| - 1]);
    }
  }

  /** The awaiter may still answer, but only what the row says. */
  predicate AnswersTheRow(s: State) {
    s.awaiter.Returned? ==> Some(s.awaiter.status) == s.row
  }

  lemma StepAnswersTheRow(s: State, a: Action)
    requires Inv(s) && Effective(s.row) != PENDING && AnswersTheRow(s)
    ensures AnswersTheRow(Step(s, a))
  {
  }

  lemma {:induction false} RunAnswersTheRow(s: State, actions: seq<Action>)
    requires Inv(s) && Effective(s.row) != PENDING && AnswersTheRow(s)
    ensures AnswersTheRow(Run(s, actions))
  {
    if actions != [] {
      var before := actions[..|actions| - 1];
      RunAnswersTheRow(s, before);
      RowIsFinal(s, before);
      StepAnswersTheRow(Run(s, before), actions[|actions| - 1]);
    }
  }

  /** No lost wake-up. From the moment the row holds a real status the awaiter can
      return nothing else, whether it has arrived or not and whichever of the
      wake-up, the timeout, the orphan timer and the two reads comes first. */
  lemma NoLostWakeUp(s: State, actions: seq<Action>)
    requires Live(s) && Effective(s.row) != PENDING && !s.awaiter.Returned?
    ensures var t := Run(s, actions); t.awaiter.Returned? ==> Some(t.awaiter.status) == s.row
  {
    LiveInv(s);
    RunAnswersTheRow(s, actions);
    RowIsFinal(s, actions);
  }

  /** Once `notify_resolved` has run, the awaiter needs only its own steps: it
      arrives, reads, and is never left waiting for the timeout. */
  lemma NotifiedMeansAwake(s: State)
    requires Live(s) && s.resolver.Notified? && Effective(s.row) != PENDING && !s.awaiter.RaisedEarly? && !s.awaiter.Raised?
    ensures s.awaiter.Waiting? ==> Enabled(s, Wake)
    ensures Step(Step(Step(Step(s, Arrive), Check), Wake), Reread).awaiter.Returned?
  {
    LiveInv(s);
    StepKeepsInv(s, Arrive);
  }

  // ---------------------------------------------------------------------------
  // Was the answer committed?
  // ---------------------------------------------------------------------------

  /** "A returned grant was committed" is false. The first read can see the UPDATE
      of a resolver that has not committed yet, and may never commit. */
  lemma GrantBeforeCommit()
    ensures var s := Run(Start(Some(PENDING)), [Arrive, ReadRequest("allow_once"), Update, Check]);
      && s.awaiter == Returned(StatusOf("allow_once")) && s.saved == Some(PENDING)
      && Step(s, Fail).resolver.Failed?
  {
    var start := Start(Some(PENDING));
    Runs.RunFour(Step, start, Arrive, ReadRequest("allow_once"), Update, Check);
    var arrived := start.(slots := [Slot(false, "")], registered := Some(0), awaiter := Checking(0));
    assert Step(start, Arrive) == arrived;
    var updated := arrived.(row := Some(StatusOf("allow_once")), resolver := Updated("allow_once"));
    assert Step(Step(arrived, ReadRequest("allow_once")), Update) == updated;
    OnceIsReal();
  }

  lemma OnceIsReal()
    ensures Effective(Some(StatusOf("allow_once"))) == StatusOf("allow_once") != PENDING
  {
    assert "allow_" <= "allow_once";
    assert StatusOf("allow_once")[0] == 'g';
  }

  /** The resolver's UPDATE has run, and nobody has committed on the connection since. */
  predicate UpdateOpen(row: Option<string>, actions: seq<Action>) {
    actions != [] &&
      var before, last := actions[..|actions| - 1], actions[|actions| - 1];
      if !Enabled(Run(Start(row), before), last) then UpdateOpen(row, before)
      else if last.Update? then true
      else !last.Commit? && !last.OtherCommit? && UpdateOpen(row, before)
  }

  /** The INSERT of the standing grant has run. */
  predicate InsertRan(row: Option<string>, actions: seq<Action>) {
    actions != [] &&
      var before, last := actions[..|actions| - 1], actions[|actions| - 1];
      InsertRan(row, before) || (last.Insert? && Enabled(Run(Start(row), before), last))
  }

  /** It has run, and somebody has committed since. */
  predicate InsertCommitted(row: Option<string>, actions: seq<Action>) {
    actions != [] &&
      var before, last := actions[..|actions| - 1], actions[|actions| - 1];
      || InsertCommitted(row, before)
      || ((last.Commit? || last.OtherCommit?) && Enabled(Run(Start(row), before), last) && InsertRan(row, before))
  }

  /** `open` is what `UpdateOpen` says of the run that led to `s`. */
  predicate OpenFits(s: State, open: bool) {
    && (open ==> s.saved == Some(PENDING) && (s.resolver.Updated? || s.resolver.Inserted? || s.resolver.Failed?))
    && (!open ==> s.saved == s.row)
  }

  lemma OpenStep(s: State, a: Action, open: bool)
    requires RowInv(s) && OpenFits(s, open) && Enabled(s, a)
    ensures OpenFits(Step(s, a), a.Update? || (!a.Commit? && !a.OtherCommit? && open))
  {
  }

  lemma {:induction false} OpenUpdateIsUnsaved(row: Option<string>, actions: seq<Action>)
    ensures OpenFits(Run(Start(row), actions), UpdateOpen(row, actions))
  {
    if actions != [] {
      var before, last := actions[..|actions| - 1], actions[|actions| - 1];
      OpenUpdateIsUnsaved(row, before);
      RunKeepsInv(Start(row), before);
      if Enabled(Run(Start(row), before), last) {
        OpenStep(Run(Start(row), before), last, UpdateOpen(row, before));
      }
    }
  }

  lemma GrantStep(s: State, a: Action)
    requires s.savedGrant ==> s.grant
    ensures var t := Step(s, a);
      && (t.grant <==> s.grant || (a.Insert? && Enabled(s, a)))
      && (t.savedGrant <==> s.savedGrant || ((a.Commit? || a.OtherCommit?) && Enabled(s, a) && s.grant))
  {
  }

  lemma {:induction false} GrantIsInserted(row: Option<string>, actions: seq<Action>)
    ensures var s := Run(Start(row), actions);
      (s.grant <==> InsertRan(row, actions)) && (s.savedGrant <==> InsertCommitted(row, actions))
  {
    if actions != [] {
      var before, last := actions[..|actions| - 1], actions[|actions| - 1];
      GrantIsInserted(row, before);
      RunKeepsInv(Start(row), before);
      GrantStep(Run(Start(row), before), last);
    }
  }

  lemma ReturnedFromRow(s: State, a: Action, status: string)
    requires Inv(s) && Returns(s, a, status) && status != PENDING
    ensures s.row == Some(status)
    ensures a.Wake? || a.TimeOut? ==> s.resolver.Notified?
  {
  }

  /** Exactly when it was: not between the resolver's UPDATE and the next commit of
      anyone. A status out of the box is never in that interval. */
  lemma {:induction false} GrantCommittedIff(row: Option<string>, actions: seq<Action>, a: Action, status: string)
    requires Returns(Run(Start(row), actions), a, status) && status != PENDING
    ensures Run(Start(row), actions).saved == Some(status) <==> !UpdateOpen(row, actions)
    ensures a.Wake? || a.TimeOut? ==> !UpdateOpen(row, actions)
  {
    RunKeepsInv(Start(row), actions);
    ReturnedFromRow(Run(Start(row), actions), a, status);
    OpenUpdateIsUnsaved(row, actions);
  }

  /** And a permanent grant is in force, status and standing grant both committed,
      exactly when a commit has followed the INSERT. */
  lemma {:induction false} AlwaysInForceIff(row: Option<string>, actions: seq<Action>, a: Action, status: string)
    requires Returns(Run(Start(row), actions), a, status) && status != PENDING
    requires Resolved(Run(Start(row), actions)) && Run(Start(row), actions).resolver.action == ALWAYS
    ensures var s := Run(Start(row), actions);
      s.saved == Some(status) && s.savedGrant <==> InsertCommitted(row, actions)
    ensures a.Wake? || a.TimeOut? ==> InsertCommitted(row, actions)
  {
    RunKeepsInv(Start(row), actions);
    ReturnedFromRow(Run(Start(row), actions), a, status);
    GrantIsInserted(row, actions);
  }

  lemma {:induction false} FailedForEver(s: State, more: seq<Action>)
    requires s.resolver.Failed?
    ensures Run(s, more).resolver == s.resolver && Run(s, more).grant == s.grant
  {
    if more != [] {
      FailedForEver(s, more[..|more| - 1]);
    }
  }

  /** Committed is not in force: another coroutine's commit can save the status of a
      permanent grant whose INSERT has yet to run. The awaiter returns it, the
      resolver fails, and the standing grant never exists. */
  lemma AlwaysWithoutGrant(more: seq<Action>)
    ensures var s := Run(Start(Some(PENDING)), [Arrive, ReadRequest(ALWAYS), Update, OtherCommit]);
      var t := Step(Step(s, Check), Fail);
      && Returns(s, Check, StatusOf(ALWAYS)) && s.saved == Some(StatusOf(ALWAYS))
      && t.resolver.Failed? && !Run(t, more).grant
  {
    var start := Start(Some(PENDING));
    Runs.RunFour(Step, start, Arrive, ReadRequest(ALWAYS), Update, OtherCommit);
    var arrived := start.(slots := [Slot(false, "")], registered := Some(0), awaiter := Checking(0));
    assert Step(start, Arrive) == arrived;
    var status := Some(StatusOf(ALWAYS));
    assert Step(Step(arrived, ReadRequest(ALWAYS)), Update) == arrived.(row := status, resolver := Updated(ALWAYS));
    var s := arrived.(row := status, saved := status, resolver := Updated(ALWAYS));
    assert Run(start, [Arrive, ReadRequest(ALWAYS), Update, OtherCommit]) == s;
    AlwaysIsReal();
    FailedForEver(Step(Step(s, Check), Fail), more);
  }

  lemma AlwaysIsReal()
    ensures Effective(Some(StatusOf(ALWAYS))) == StatusOf(ALWAYS) != PENDING
  {
    assert "allow_" <= ALWAYS;
    assert StatusOf(ALWAYS)[0] == 'g';
  }

  /** A status out of the box comes from a resolver that has committed all it wrote;
      for "allow always" that includes the standing grant. */
  lemma BoxMeansCommitted(s: State, a: Action, status: string)
    requires Live(s) && Returns(s, a, status) && (a.Wake? || a.TimeOut?)
    ensures s.resolver.Notified? && status == StatusOf(s.resolver.action) && s.saved == Some(status)
    ensures s.savedGrant <==> s.resolver.action == ALWAYS
  {
    LiveInv(s);
    assert s.slots[s.awaiter.slot] in s.slots;
  }

  // ---------------------------------------------------------------------------
  // `_waiters` does not accumulate
  // ---------------------------------------------------------------------------

  /** When the awaiter has ended and the timer, if one runs, has fired, `_waiters` still
      holds a slot for the request exactly when an exception left the awaiter before its
      `try` and no notification ever reached its slot: none came, or it came and its
      timer had fired before the awaiter arrived. */
  lemma NothingLeftBehind(s: State)
    requires Live(s) && Ended(s.awaiter)
    ensures s.awaiter.RaisedEarly? ==> s.awaiter.slot < |s.slots|
    ensures var t := Step(s, TimerFires);
      t.timers == 0 && (t.registered.Some? <==> s.awaiter.RaisedEarly? && !s.slots[s.awaiter.slot].isSet)
  {
    LiveInv(s);
  }
}
