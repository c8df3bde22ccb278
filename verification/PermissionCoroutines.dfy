/** The three routines of the permission protocol as the source writes them:
    `await_permission`, `notify_resolved` and `resolve_permission`. At an await the
    other coroutines take any steps of `PermissionWait`. */
module PermissionCoroutines {
  import opened Common
  import opened PermissionAnswers
  import opened PermissionWait
  import Runs

  predicate OfAwaiter(a: Action) {
    a.Arrive? || a.Check? || a.Wake? || a.TimeOut? || a.Reread? || a.Raise?
  }

  predicate OfResolver(a: Action) {
    a.ReadRequest? || a.Update? || a.Insert? || a.Commit? || a.Notify? || a.Fail?
  }

  predicate Others(actions: seq<Action>) {
    forall a <- actions :: !OfAwaiter(a)
  }

  predicate NotResolving(actions: seq<Action>) {
    forall a <- actions :: !OfResolver(a)
  }

  lemma LiveOn(s: State, t: State)
    requires Live(s) && Runs.Reaches(Step, s, t)
    ensures Live(t) && Inv(t)
  {
    var row, first :| s == Run(Start(row), first);
    var more: seq<Action> :| t == Runs.Run(Step, s, more);
    Runs.RunConcat(Step, Start(row), first, more);
    assert t == Run(Start(row), first + more);
    LiveInv(t);
  }

  lemma {:induction false} OthersLeaveAwaiter(s: State, actions: seq<Action>)
    requires Others(actions)
    ensures Run(s, actions).awaiter == s.awaiter
  {
    if actions != [] {
      var n := |actions| - 1;
      assert Others(actions[..n]);
      OthersLeaveAwaiter(s, actions[..n]);
      assert actions[n] in actions;
    }
  }

  lemma {:induction false} OthersLeaveResolver(s: State, actions: seq<Action>)
    requires NotResolving(actions)
    ensures Run(s, actions).resolver == s.resolver
  {
    if actions != [] {
      var n := |actions| - 1;
      assert NotResolving(actions[..n]);
      OthersLeaveResolver(s, actions[..n]);
      assert actions[n] in actions;
    }
  }

  class Process {
    var row: Option<string>
    var saved: Option<string>
    var grant: bool
    var savedGrant: bool
    var slots: seq<Slot>
    var registered: Option<nat>
    var timers: nat
    var awaiter: AwaiterPc
    var resolver: ResolverPc

    function View(): State
      reads this
    {
      State(row, saved, grant, savedGrant, slots, registered, timers, awaiter, resolver)
    }

    constructor (request: Option<string>)
      ensures View() == Start(request)
    {
      row, saved, grant, savedGrant := request, request, false, false;
      slots, registered, timers := [], None, 0;
      awaiter, resolver := NotArrived, Idle;
    }

    /** An await. */
    method Await(actions: seq<Action>, ghost origin: State)
      requires Runs.Reaches(Step, origin, View())
      modifies this
      ensures Runs.Reaches(Step, origin, View())
      ensures View() == Run(old(View()), actions)
    {
      Runs.ReachesRun(Step, origin, View(), actions);
      var after := Run(View(), actions);
      row, saved, grant, savedGrant := after.row, after.saved, after.grant, after.savedGrant;
      slots, registered, timers := after.slots, after.registered, after.timers;
      awaiter, resolver := after.awaiter, after.resolver;
    }

    method AwaitOthers(actions: seq<Action>, ghost origin: State)
      requires Others(actions) && Runs.Reaches(Step, origin, View())
      modifies this
      ensures awaiter == old(awaiter) && Runs.Reaches(Step, origin, View())
    {
      OthersLeaveAwaiter(View(), actions);
      Await(actions, origin);
    }

    method AwaitNotResolving(actions: seq<Action>, ghost origin: State)
      requires NotResolving(actions) && Runs.Reaches(Step, origin, View())
      modifies this
      ensures resolver == old(resolver) && Runs.Reaches(Step, origin, View())
    {
      OthersLeaveResolver(View(), actions);
      Await(actions, origin);
    }

    /** `_slot`. */
    method SlotOf() returns (slot: nat)
      requires registered.Some? ==> registered.value < |slots|
      modifies this`slots, this`registered
      ensures View() == Taken(old(View())) && registered == Some(slot) && slot < |slots|
    {
      if registered.None? {
        slots := slots + [Slot(false, "")];
        registered := Some(|slots| - 1);
      }
      slot := registered.value;
    }

    // ----- await_permission -----

    method TakeSlot() returns (slot: nat)
      requires awaiter.NotArrived? && (registered.Some? ==> registered.value < |slots|)
      modifies this
      ensures View() == Step(old(View()), Arrive) && awaiter == Checking(slot)
    {
      slot := SlotOf();
      awaiter := Checking(slot);
    }

    /** The first read: the answer, if the row already has one. */
    method ReadRow(slot: nat) returns (current: Option<string>)
      requires awaiter == Checking(slot)
      modifies this
      ensures View() == Step(old(View()), Check)
      ensures awaiter == if current.Some? then Returned(current.value) else Waiting(slot)
    {
      if row.Some? {
        var status := if row.value == "" then PENDING else row.value;
        if status != PENDING {
          registered := None;
          awaiter := Returned(status);
          return Some(status);
        }
      }
      awaiter := Waiting(slot);
      current := None;
    }

    /** `wait_for` is over, for either reason. */
    method LeaveWait(slot: nat) returns (box: string)
      requires awaiter == Waiting(slot) && slot < |slots|
      modifies this
      ensures View() == Step(old(View()), TimeOut)
      ensures old(slots)[slot].isSet ==> View() == Step(old(View()), Wake)
      ensures awaiter == if box != "" then Returned(box) else Rereading
    {
      registered := None;
      box := slots[slot].box;
      awaiter := if box != "" then Returned(box) else Rereading;
    }

    method RereadRow() returns (status: string)
      requires awaiter.Rereading?
      modifies this
      ensures View() == Step(old(View()), Reread) && awaiter == Returned(status)
    {
      status := PENDING;
      if row.Some? && row.value != "" {
        status := row.value;
      }
      awaiter := Returned(status);
    }

    /** `await_permission`. */
    method AwaitPermission(atCheck: seq<Action>, atWait: seq<Action>, atReread: seq<Action>) returns (status: string)
      requires Live(View()) && awaiter.NotArrived?
      requires Others(atCheck) && Others(atWait) && Others(atReread)
      modifies this
      ensures Runs.Reaches(Step, old(View()), View()) && awaiter == Returned(status)
      ensures Effective(old(row)) != PENDING ==> Some(status) == old(row)
      ensures status != PENDING ==> row == Some(status)
    {
      ghost var origin := View();
      Runs.ReachesSelf(Step, origin);
      SlotsExist(origin, origin);
      Runs.ReachesNext(Step, origin, origin, Arrive);
      var slot := TakeSlot();
      AwaitOthers(atCheck, origin);
      Runs.ReachesNext(Step, origin, View(), Check);
      var current := ReadRow(slot);
      if current.Some? {
        status := current.value;
      } else {
        AwaitOthers(atWait, origin);
        SlotsExist(origin, View());
        Runs.ReachesNext(Step, origin, View(), TimeOut);
        status := LeaveWait(slot);
        if status == "" {
          AwaitOthers(atReread, origin);
          Runs.ReachesNext(Step, origin, View(), Reread);
          status := RereadRow();
        }
      }
      AnswerFits(origin, View());
    }

    // ----- resolve_permission -----

    /** `notify_resolved`. */
    method NotifyResolved(status: string)
      requires registered.Some? ==> registered.value < |slots|
      requires resolver.Committed? && status == StatusOf(resolver.action)
      modifies this
      ensures View() == Step(old(View()), Notify)
    {
      var slot := SlotOf();
      slots := slots[slot := Slot(true, status)];
      timers := timers + 1;
      resolver := Notified(resolver.action);
    }

    method ReadRequestRow(action: string) returns (found: bool)
      requires resolver.Idle?
      modifies this`resolver
      ensures View() == Step(old(View()), ReadRequest(action))
      ensures found == (row == Some(PENDING)) && resolver == if found then Checked(action) else Refused
    {
      found := row == Some(PENDING);
      resolver := if found then Checked(action) else Refused;
    }

    method UpdateRow(action: string)
      requires resolver == Checked(action)
      modifies this`row, this`resolver
      ensures View() == Step(old(View()), Update) && resolver == Updated(action)
    {
      row := Some(StatusOf(action));
      resolver := Updated(action);
    }

    method InsertGrant()
      requires resolver == Updated(ALWAYS)
      modifies this`grant, this`resolver
      ensures View() == Step(old(View()), Insert) && resolver == Inserted(ALWAYS)
    {
      grant := true;
      resolver := Inserted(ALWAYS);
    }

    method CommitAll(action: string)
      requires resolver == if action == ALWAYS then Inserted(action) else Updated(action)
      modifies this`saved, this`savedGrant, this`resolver
      ensures View() == Step(old(View()), Commit) && resolver == Committed(action)
    {
      saved, savedGrant := row, grant;
      resolver := Committed(action);
    }

    /** The three statements and the commit. */
    method WriteAnswer(action: string, atUpdate: seq<Action>, atInsert: seq<Action>, atCommit: seq<Action>, ghost origin: State)
      requires Runs.Reaches(Step, origin, View()) && resolver == Checked(action)
      requires NotResolving(atUpdate) && NotResolving(atInsert) && NotResolving(atCommit)
      modifies this
      ensures Runs.Reaches(Step, origin, View()) && resolver == Committed(action)
    {
      AwaitNotResolving(atUpdate, origin);
      Runs.ReachesNext(Step, origin, View(), Update);
      UpdateRow(action);
      AwaitNotResolving(atInsert, origin);
      if action == ALWAYS {
        Runs.ReachesNext(Step, origin, View(), Insert);
        InsertGrant();
        AwaitNotResolving(atCommit, origin);
      }
      Runs.ReachesNext(Step, origin, View(), Commit);
      CommitAll(action);
    }

    /** `resolve_permission`, when no statement of it fails. */
    method ResolvePermission(action: string, atUpdate: seq<Action>, atInsert: seq<Action>, atCommit: seq<Action>,
                             atNotify: seq<Action>)
      returns (ok: bool)
      requires Live(View()) && resolver.Idle?
      requires NotResolving(atUpdate) && NotResolving(atInsert) && NotResolving(atCommit) && NotResolving(atNotify)
      modifies this
      ensures Runs.Reaches(Step, old(View()), View())
      ensures ok == (old(row) == Some("pending"))
      ensures resolver == if ok then Notified(action) else Refused
      ensures ok ==> saved == row && (savedGrant <==> action == "allow_always")
      ensures ok && action == "deny" ==> row == Some("denied")
      ensures ok && action == "allow_once" ==> row == Some("granted_once")
      ensures ok && action == "allow_always" ==> row == Some("granted_always")
      ensures ok ==> row == Some(StatusOf(action))
    {
      ghost var origin := View();
      Runs.ReachesSelf(Step, origin);
      Runs.ReachesNext(Step, origin, origin, ReadRequest(action));
      ok := ReadRequestRow(action);
      if !ok {
        return;
      }
      WriteAnswer(action, atUpdate, atInsert, atCommit, origin);
      AwaitNotResolving(atNotify, origin);
      SlotsExist(origin, View());
      Runs.ReachesNext(Step, origin, View(), Notify);
      NotifyResolved(StatusOf(action));
      NotifiedIsSaved(origin, View());
      StatusTexts(action);
    }
  }

  lemma SlotsExist(s: State, t: State)
    requires Live(s) && Runs.Reaches(Step, s, t)
    ensures t.registered.Some? ==> t.registered.value < |t.slots|
    ensures t.awaiter.Waiting? ==> t.awaiter.slot < |t.slots|
  {
    LiveOn(s, t);
  }

  lemma NotifiedIsSaved(s: State, t: State)
    requires Live(s) && Runs.Reaches(Step, s, t) && t.resolver.Notified?
    ensures t.row == Some(StatusOf(t.resolver.action)) && t.saved == t.row
    ensures t.savedGrant <==> t.resolver.action == ALWAYS
  {
    LiveOn(s, t);
  }

  lemma AnswerFits(s: State, t: State)
    requires Live(s) && Runs.Reaches(Step, s, t) && t.awaiter.Returned? && !s.awaiter.Returned?
    ensures Effective(s.row) != PENDING ==> Some(t.awaiter.status) == s.row
    ensures t.awaiter.status != PENDING ==> t.row == Some(t.awaiter.status)
  {
    LiveOn(s, t);
    var actions: seq<Action> :| t == Runs.Run(Step, s, actions);
    if Effective(s.row) != PENDING {
      NoLostWakeUp(s, actions);
    }
  }
}
