/** Which answer comes of which action: the texts that `resolve_permission` writes and
    `await_permission` returns, in every run. */
module PermissionAnswers {
  import opened Common
  import opened PermissionWait
  import Runs

  // ---------------------------------------------------------------------------
  // action.replace("allow_", "granted_")
  // ---------------------------------------------------------------------------

  /** A text without a 'g' comes only of itself. */
  lemma {:induction false} OnlyOfItself(s: string, t: string)
    requires 'g' !in t && ReplaceAll(s, "allow_", "granted_") == t
    ensures s == t
  {
    if s != "" {
      assert !("allow_" <= s);
      var rest := ReplaceAll(s[1..], "allow_", "granted_");
      assert rest == ([s[0]] + rest)[1..] == t[1..];
      OnlyOfItself(s[1..], t[1..]);
      assert s == [s[0]] + s[1..];
    }
  }

  /** A text that lacks a letter of "allow_" stays as it is. */
  lemma {:induction false} StaysAsItIs(s: string, missing: char)
    requires missing in "allow_" && missing !in s
    ensures ReplaceAll(s, "allow_", "granted_") == s
  {
    if s != "" {
      assert missing !in s[1..];
      assert !("allow_" <= s);
      StaysAsItIs(s[1..], missing);
      assert s == [s[0]] + s[1..];
    }
  }

  /** A "granted_" text comes of the "allow_" action, or of itself. */
  lemma GrantedOf(s: string, rest: string)
    requires 'g' !in rest && ReplaceAll(s, "allow_", "granted_") == "granted_" + rest
    ensures s == "allow_" + rest || s == "granted_" + rest
  {
    var granted := "granted_" + rest;
    assert granted[1..] == "ranted_" + rest && granted[8..] == rest;
    if "allow_" <= s {
      var after := ReplaceAll(s[6..], "allow_", "granted_");
      assert ("granted_" + after)[8..] == after;
      OnlyOfItself(s[6..], rest);
      assert s == s[..6] + s[6..] && s[..6] == "allow_";
    } else {
      var after := ReplaceAll(s[1..], "allow_", "granted_");
      assert ([s[0]] + after)[1..] == after;
      OnlyOfItself(s[1..], "ranted_" + rest);
      assert s == [s[0]] + s[1..] && granted == [granted[0]] + granted[1..];
    }
  }

  lemma GrantedIff(action: string, rest: string, missing: char)
    requires 'g' !in rest && missing in "allow_" && missing !in rest && missing !in "granted_"
    ensures ReplaceAll(action, "allow_", "granted_") == "granted_" + rest
      <==> action == "allow_" + rest || action == "granted_" + rest
  {
    if ReplaceAll(action, "allow_", "granted_") == "granted_" + rest {
      GrantedOf(action, rest);
    }
    assert ("allow_" + rest)[6..] == rest && "allow_" <= "allow_" + rest;
    StaysAsItIs(rest, missing);
    StaysAsItIs("granted_" + rest, missing);
  }

  lemma DeniedIff(action: string)
    ensures StatusOf(action) == "denied" <==> action == "deny" || action == "denied"
  {
    StaysAsItIs("denied", 'a');
    if ReplaceAll(action, "allow_", "granted_") == "denied" {
      OnlyOfItself(action, "denied");
    }
  }

  lemma OnceIff(action: string)
    ensures StatusOf(action) == "granted_once" <==> action == "allow_once" || action == "granted_once"
  {
    GrantedIff(action, "once", 'l');
    assert "allow_" + "once" == "allow_once" && "granted_" + "once" == "granted_once";
  }

  lemma AlwaysIff(action: string)
    ensures StatusOf(action) == "granted_always" <==> action == "allow_always" || action == "granted_always"
  {
    GrantedIff(action, "always", 'o');
    assert "allow_" + "always" == "allow_always" && "granted_" + "always" == "granted_always";
  }

  /** The three documented actions, and what else writes the same three texts: the
      request body is not validated, and an action that already reads like a status is
      written as it is. */
  lemma StatusTexts(action: string)
    ensures StatusOf(action) == "denied" <==> action == "deny" || action == "denied"
    ensures StatusOf(action) == "granted_once" <==> action == "allow_once" || action == "granted_once"
    ensures StatusOf(action) == "granted_always" <==> action == "allow_always" || action == "granted_always"
  {
    DeniedIff(action);
    OnceIff(action);
    AlwaysIff(action);
  }

  // ---------------------------------------------------------------------------
  // What the awaiter is told
  // ---------------------------------------------------------------------------

  /** The action of the resolver whose UPDATE has run. */
  function Written(s: State): Option<string> {
    if Resolved(s) then Some(s.resolver.action) else None
  }

  lemma StepBeforeUpdate(s: State, a: Action)
    requires !Resolved(Step(s, a))
    ensures !Resolved(s) && Step(s, a).row == s.row
  {
  }

  lemma {:induction false} RowBeforeUpdate(row: Option<string>, actions: seq<Action>)
    ensures var s := Run(Start(row), actions); !Resolved(s) ==> s.row == row
  {
    if actions != [] {
      var before := actions[..|actions| - 1];
      RowBeforeUpdate(row, before);
      if !Resolved(Run(Start(row), actions)) {
        StepBeforeUpdate(Run(Start(row), before), actions[|actions| - 1]);
      }
    }
  }

  /** A request that was pending is answered with "pending", or by the action that was
      written. A documented action is answered with its own status and no other; and
      any answer in one of the three statuses comes of its action, or of an action that
      is that status itself. */
  lemma AnswerIsTheAction(actions: seq<Action>, status: string)
    requires Run(Start(Some("pending")), actions).awaiter == Returned(status) && status != "pending"
    ensures var w := Written(Run(Start(Some("pending")), actions));
      && w.Some?
      && (w.value == "deny" ==> status == "denied")
      && (w.value == "allow_once" ==> status == "granted_once")
      && (w.value == "allow_always" ==> status == "granted_always")
      && (status == "denied" <==> w.value == "deny" || w.value == "denied")
      && (status == "granted_once" <==> w.value == "allow_once" || w.value == "granted_once")
      && (status == "granted_always" <==> w.value == "allow_always" || w.value == "granted_always")
  {
    var s := Run(Start(Some("pending")), actions);
    RunKeepsInv(Start(Some("pending")), actions);
    RowBeforeUpdate(Some("pending"), actions);
    assert s.row == Some(status) && Resolved(s);
    StatusTexts(s.resolver.action);
  }

  /** The unvalidated action matters: "granted_always" makes the awaiter report a
      permanent grant, committed, and no standing grant is ever written, in any
      continuation. */
  lemma StatusAsActionGrantsNothing(more: seq<Action>)
    ensures var s := Run(Start(Some("pending")), [ReadRequest("granted_always"), Update, Commit, Arrive]);
      && Step(s, Check).awaiter == Returned("granted_always") && s.saved == Some("granted_always")
      && !Run(s, more).grant
  {
    StatusTexts("granted_always");
    assert "granted_always"[0] != "allow_always"[0] && "granted_always"[0] != "pending"[0];
    NoGrantWithout("granted_always", more);
  }

  lemma NoGrantWithout(action: string, more: seq<Action>)
    requires action != "allow_always" && StatusOf(action) != "" && StatusOf(action) != "pending"
    ensures var s := Run(Start(Some("pending")), [ReadRequest(action), Update, Commit, Arrive]);
      && Step(s, Check).awaiter == Returned(StatusOf(action)) && s.saved == Some(StatusOf(action))
      && !Run(s, more).grant
  {
    var start := Start(Some("pending"));
    Runs.RunFour(Step, start, ReadRequest(action), Update, Commit, Arrive);
    var s := Run(start, [ReadRequest(action), Update, Commit, Arrive]);
    assert Step(Step(start, ReadRequest(action)), Update) == start.(row := Some(StatusOf(action)), resolver := Updated(action));
    NoGrantAfterCommit(s, more);
  }

  lemma {:induction false} NoGrantAfterCommit(s: State, more: seq<Action>)
    requires !s.grant && (s.resolver.Committed? || s.resolver.Notified? || s.resolver.Failed?)
    ensures var t := Run(s, more);
      !t.grant && (t.resolver.Committed? || t.resolver.Notified? || t.resolver.Failed?)
  {
    if more != [] {
      NoGrantAfterCommit(s, more[..|more| - 1]);
    }
  }
}
