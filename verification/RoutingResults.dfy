/** What the rule language means, rule by rule and without the functions that interpret
    it, for both interpreters; and where the default table sends an event. */
module RoutingResults {
  import opened Common
  import opened Routing
  import opened RuleGrowth
  import opened SeedRouter

  // ---------------------------------------------------------------------------
  // One rule in a table
  // ---------------------------------------------------------------------------

  /** `urgency_below`: urgencies go ambient, soft, persistent, urgent; an unknown urgency
      is as quiet as ambient, and an unknown bound lets everything pass. */
  predicate QuieterThan(urgency: string, bound: string) {
    if bound == "ambient" then false
    else if bound == "soft" then urgency !in {"soft", "persistent", "urgent"}
    else if bound == "persistent" then urgency !in {"persistent", "urgent"}
    else if bound == "urgent" then urgency != "urgent"
    else true
  }

  /** Nothing that the matcher asks for is missing from the event or the user's state. */
  predicate Agrees(m: RuleMatch, event: Event, state: UserState) {
    && m.category in {None, Some(event.category)}
    && m.urgency in {None, Some(event.urgency)}
    && (m.urgencyBelow.None? || QuieterThan(event.urgency, m.urgencyBelow.value))
    && (m.state.None? || m.state.value in state)
    && m.sourceTool in {None, Some(event.sourceTool)}
  }

  /** The override is in force for the event. */
  predicate InForce(rule: Rule, event: Event, state: UserState) {
    rule.action.isOverride && Agrees(rule.on, event, state) && event.urgency !in rule.action.exceptUrgency
  }

  lemma MatchingIsAgreeing(rule: Rule, event: Event, state: UserState)
    ensures RuleMatches(rule, event, state) <==> Agrees(rule.on, event, state)
  {
  }

  lemma {:induction false} MatchedOfConcat(xs: seq<Rule>, ys: seq<Rule>, event: Event, state: UserState)
    ensures MatchedPositions(xs + ys, event, state) == MatchedPositions(xs, event, state) + MatchedPositions(ys, event, state)
  {
    if ys == [] {
      assert xs + ys == xs;
    } else {
      var n := |ys| - 1;
      assert (xs + ys)[..|xs| + n] == xs + ys[..n];
      MatchedOfConcat(xs, ys[..n], event, state);
    }
  }

  lemma InertForBase(before: seq<Rule>, rule: Rule, after: seq<Rule>, event: Event, state: UserState)
    requires !RuleMatches(rule, event, state)
    ensures FirstBase(before + [rule] + after, event, state) == FirstBase(before + after, event, state)
  {
    FirstBaseOfConcat(before + [rule], after, event, state);
    FirstBaseOfConcat(before, [rule], event, state);
    FirstBaseOfConcat(before, after, event, state);
  }

  lemma InertForOverrides(before: seq<Rule>, rule: Rule, after: seq<Rule>, event: Event, state: UserState)
    requires !RuleMatches(rule, event, state)
    ensures LastOverride(before + [rule] + after, event, state) == LastOverride(before + after, event, state)
  {
    LastOverrideOfConcat(before + [rule], after, event, state);
    LastOverrideOfConcat(before, [rule], event, state);
    LastOverrideOfConcat(before, after, event, state);
  }

  lemma InertForPositions(before: seq<Rule>, rule: Rule, after: seq<Rule>, event: Event, state: UserState)
    requires !RuleMatches(rule, event, state)
    ensures MatchedPositions(before + [rule] + after, event, state) == MatchedPositions(before + after, event, state)
  {
    MatchedOfConcat(before + [rule], after, event, state);
    MatchedOfConcat(before, [rule], event, state);
    MatchedOfConcat(before, after, event, state);
    assert [rule][..0] == [] && MatchedPositions([rule], event, state) == [];
  }

  /** A rule that asks for anything the event does not have might as well not be there. */
  lemma DisagreeingRuleIsInert(before: seq<Rule>, rule: Rule, after: seq<Rule>, event: Event, state: UserState,
                               installed: seq<Manifest>, limited: set<string>, pick: Option<seq<string>>)
    requires !Agrees(rule.on, event, state)
    ensures Decide(before + [rule] + after, event, state, installed, limited, pick)
         == Decide(before + after, event, state, installed, limited, pick)
  {
    MatchingIsAgreeing(rule, event, state);
    InertForBase(before, rule, after, event, state);
    InertForOverrides(before, rule, after, event, state);
    InertForPositions(before, rule, after, event, state);
  }

  /** What a rule puts in place: the digest, every installed channel, or its list. */
  function Says(action: RuleAction, installed: seq<Manifest>): seq<string> {
    if action.isOverride && action.deferToDigest then ["digest"]
    else if action.channels.AllAvailable? then seq(|installed|, i requires 0 <= i < |installed| => installed[i].name)
    else action.channels.names
  }

  lemma SaysIsReplacement(rule: Rule, installed: seq<Manifest>)
    ensures rule.action.isOverride ==> Says(rule.action, installed) == Replacement(rule, installed)
    ensures !rule.action.isOverride ==> Says(rule.action, installed) == Resolve(rule.action.channels, installed)
  {
    if rule.action.channels.AllAvailable? {
      assert seq(|installed|, i requires 0 <= i < |installed| => installed[i].name) == Names(installed);
    }
  }

  /** The last override in force decides, whatever else is in the table. */
  lemma LastOverrideDecides(before: seq<Rule>, rule: Rule, after: seq<Rule>, event: Event, state: UserState,
                            installed: seq<Manifest>, limited: set<string>, pick: Option<seq<string>>)
    requires !event.expired && InForce(rule, event, state) && forall r <- after :: !InForce(r, event, state)
    ensures Decide(before + [rule] + after, event, state, installed, limited, pick).candidates == Says(rule.action, installed)
  {
    forall r <- after ensures !Overrides(r, event, state) {
      MatchingIsAgreeing(r, event, state);
    }
    MatchingIsAgreeing(rule, event, state);
    LastOverrideOfConcat(before + [rule], after, event, state);
    LastOverrideOfConcat(before, [rule], event, state);
    SaysIsReplacement(rule, installed);
  }

  /** Where no override is in force, the first rule that agrees decides. */
  lemma FirstRuleDecides(before: seq<Rule>, rule: Rule, after: seq<Rule>, event: Event, state: UserState,
                         installed: seq<Manifest>, limited: set<string>, pick: Option<seq<string>>)
    requires !event.expired && !rule.action.isOverride && Agrees(rule.on, event, state)
    requires forall r <- before :: !r.action.isOverride ==> !Agrees(r.on, event, state)
    requires forall r <- before + after :: !InForce(r, event, state)
    ensures Decide(before + [rule] + after, event, state, installed, limited, pick).candidates == Says(rule.action, installed)
  {
    var table := before + [rule] + after;
    forall r <- table ensures !Overrides(r, event, state) {
      MatchingIsAgreeing(r, event, state);
      assert r == rule || r in before + after;
    }
    forall r <- before ensures !IsBase(r, event, state) {
      MatchingIsAgreeing(r, event, state);
    }
    MatchingIsAgreeing(rule, event, state);
    FirstBaseOfConcat(before + [rule], after, event, state);
    FirstBaseOfConcat(before, [rule], event, state);
    SaysIsReplacement(rule, installed);
  }

  /** Where no rule agrees, the LLM's pick decides, or else it is the digest; and the
      matched positions are those of the rules that agree, in table order. */
  lemma {:induction false} NoRuleDecides(rules: seq<Rule>, event: Event, state: UserState, installed: seq<Manifest>, limited: set<string>,
                        pick: Option<seq<string>>)
    requires !event.expired
    ensures (forall r <- rules :: !Agrees(r.on, event, state)) ==>
      var d := Decide(rules, event, state, installed, limited, pick);
      d.candidates == (if pick.Some? then pick.value else ["digest"]) && d.matched == []
    ensures rules != [] ==>
      var n := |rules| - 1;
      Decide(rules, event, state, installed, limited, pick).matched
      == Decide(rules[..n], event, state, installed, limited, pick).matched
         + (if Agrees(rules[n].on, event, state) then [rules[n].position] else [])
  {
    if forall r <- rules :: !Agrees(r.on, event, state) {
      forall r <- rules ensures !RuleMatches(r, event, state) {
        MatchingIsAgreeing(r, event, state);
      }
      NothingMatched(rules, event, state);
    }
    if rules != [] {
      MatchingIsAgreeing(rules[|rules| - 1], event, state);
    }
  }

  lemma {:induction false} NothingMatched(rules: seq<Rule>, event: Event, state: UserState)
    requires forall r <- rules :: !RuleMatches(r, event, state)
    ensures MatchedPositions(rules, event, state) == []
  {
    if rules != [] {
      NothingMatched(rules[..|rules| - 1], event, state);
    }
  }

  // ---------------------------------------------------------------------------
  // The default table
  // ---------------------------------------------------------------------------

  lemma {:induction false} FirstBaseAt(rules: seq<Rule>, event: Event, state: UserState, i: nat)
    requires i < |rules| && IsBase(rules[i], event, state) && forall j :: 0 <= j < i ==> !IsBase(rules[j], event, state)
    ensures FirstBase(rules, event, state) == Some(rules[i])
  {
    if i > 0 {
      FirstBaseAt(rules[1..], event, state, i - 1);
    }
  }

  /** Where a category goes by default. */
  function DefaultFor(category: string): Option<seq<string>> {
    if category == "permission_request" || category == "completion" || category == "progress" || category == "query"
    then Some(["web_toast"])
    else if category == "reminder" then Some(["web_persistent"])
    else if category == "alert" then Some(["web_toast", "web_persistent"])
    else if category == "status" then Some(["digest"])
    else None
  }

  /** The row of the default table that decides. */
  function DecidingRow(event: Event): Option<nat> {
    if event.urgency == "urgent" then Some(0)
    else if event.category == "intervention" && event.urgency == "persistent" then Some(1)
    else if event.category == "permission_request" then Some(2)
    else if event.category == "completion" then Some(3)
    else if event.category == "reminder" then Some(4)
    else if event.category == "alert" then Some(5)
    else if event.category == "status" then Some(6)
    else if event.category == "progress" then Some(7)
    else if event.category == "query" then Some(8)
    else None
  }

  lemma DecidingRowIsFirst(event: Event, state: UserState)
    ensures FirstBase(DefaultRules, event, state)
         == if DecidingRow(event).Some? then Some(DefaultRules[DecidingRow(event).value]) else None
  {
    var row := DecidingRow(event);
    forall j | 0 <= j < |DefaultRules| && (row.None? || j < row.value) ensures !IsBase(DefaultRules[j], event, state) {
      assert j in {0, 1, 2, 3, 4, 5, 6, 7, 8, 9, 10};
    }
    if row.Some? {
      FirstBaseAt(DefaultRules, event, state, row.value);
    } else {
      assert forall r <- DefaultRules :: !IsBase(r, event, state);
    }
  }

  lemma {:induction false} DefaultOverride(event: Event, state: UserState)
    ensures var last := LastOverride(DefaultRules, event, state);
      && (last.Some? <==> event.urgency != "urgent" && ("do_not_disturb" in state || "asleep" in state))
      && (last.Some? ==> forall installed :: Replacement(last.value, installed) == ["digest"])
  {
    assert DefaultRules[9] == DoNotDisturb && DefaultRules[10] == Asleep;
    var last := LastOverride(DefaultRules, event, state);
    if last.Some? {
      assert last.value == DoNotDisturb || last.value == Asleep;
    }
    if event.urgency != "urgent" && ("do_not_disturb" in state || "asleep" in state) {
      assert Overrides(if "do_not_disturb" in state then DoNotDisturb else Asleep, event, state);
    }
  }

  /** What the deciding row lists. */
  lemma RowLists(event: Event, installed: seq<Manifest>)
    requires DecidingRow(event).Some?
    ensures Resolve(DefaultRules[DecidingRow(event).value].action.channels, installed)
         == if event.urgency == "urgent" then Names(installed)
            else if event.category == "intervention" && event.urgency == "persistent" then ["web_persistent", "web_toast"]
            else if DefaultFor(event.category).Some? then DefaultFor(event.category).value else []
  {
    var channels := DefaultRules[DecidingRow(event).value].action.channels;
    match DecidingRow(event).value
    case 0 => assert channels == AllAvailable;
    case 1 => assert channels == Listed(["web_persistent", "web_toast"]);
    case 4 => assert channels == Listed(["web_persistent"]);
    case 5 => assert channels == Listed(["web_toast", "web_persistent"]);
    case 6 => assert channels == Listed(["digest"]);
    case _ => assert channels == Listed(["web_toast"]);
  }

  lemma CandidatesOfRow(rules: seq<Rule>, event: Event, state: UserState, installed: seq<Manifest>, pick: Option<seq<string>>)
    ensures var override, base := LastOverride(rules, event, state), FirstBase(rules, event, state);
      Candidates(rules, event, state, installed, pick)
      == if override.Some? then Replacement(override.value, installed)
         else if base.Some? then Resolve(base.value.action.channels, installed)
         else if pick.Some? then pick.value else ["digest"]
  {
  }

  /** The default table. Quiet modes send what is not urgent to the digest; an urgent
      event goes to every installed channel; a persistent intervention to both web
      channels; and the rest by category, or else where the LLM says, or to the digest. */
  lemma DefaultTable(event: Event, state: UserState, installed: seq<Manifest>, pick: Option<seq<string>>)
    ensures Candidates(DefaultRules, event, state, installed, pick)
         == if event.urgency != "urgent" && ("do_not_disturb" in state || "asleep" in state) then ["digest"]
            else if event.urgency == "urgent" then seq(|installed|, i requires 0 <= i < |installed| => installed[i].name)
            else if event.category == "intervention" && event.urgency == "persistent" then ["web_persistent", "web_toast"]
            else if DefaultFor(event.category).Some? then DefaultFor(event.category).value
            else if pick.Some? then pick.value
            else ["digest"]
  {
    DefaultOverride(event, state);
    DecidingRowIsFirst(event, state);
    CandidatesOfRow(DefaultRules, event, state, installed, pick);
    if DecidingRow(event).Some? {
      RowLists(event, installed);
    }
    assert seq(|installed|, i requires 0 <= i < |installed| => installed[i].name) == Names(installed);
  }

  // ---------------------------------------------------------------------------
  // The seed tool's gate
  // ---------------------------------------------------------------------------

  /** What the tool's dictionaries say of the channel of this name. Missing keys mean
      personal, on either side, and no actions. */
  predicate SeedTakes(channels: seq<SeedChannel>, event: SeedEvent, name: string) {
    && name in ByName(channels)
    && var sensitivity := if "sensitivity" in event.fields then event.fields["sensitivity"] else "personal";
    var tolerance := if ByName(channels)[name].tolerance.Some? then ByName(channels)[name].tolerance.value else "personal";
    MayCarry(tolerance, sensitivity) && (event.actions ==> ByName(channels)[name].actions == Some(true))
  }

  lemma {:induction false} SiftExactly(names: seq<string>, channels: seq<SeedChannel>, event: SeedEvent, name: string)
    ensures name in Sift(names, ByName(channels), event).final <==> name in names && SeedTakes(channels, event, name)
  {
    if names != [] {
      var n := |names| - 1;
      SiftExactly(names[..n], channels, event, name);
      assert names == names[..n] + [names[n]];
    }
  }

  /** The tool keeps the same gate: if some candidate takes the event, exactly those that
      do are dispatched, and otherwise the same fallback decides. */
  lemma SeedDispatchedExactly(rules: seq<SeedRule>, event: SeedEvent, channels: seq<SeedChannel>, state: UserState)
    ensures var d := SeedDecide(rules, event, channels, state);
      if event.expired then d == Decision([], [], map[], [], true)
      else if exists n :: n in d.candidates && SeedTakes(channels, event, n) then
        forall name :: name in d.dispatched <==> name in d.candidates && SeedTakes(channels, event, name)
      else
        d.dispatched == (if "urgency" in event.fields && event.fields["urgency"] == "urgent" && "web_toast" in SeedNames(channels)
                         then ["web_toast"]
                         else if "digest" in SeedNames(channels) then ["digest"] else [])
  {
    if !event.expired {
      var d := SeedDecide(rules, event, channels, state);
      var final := Sift(d.candidates, ByName(channels), event).final;
      forall name ensures name in final <==> name in d.candidates && SeedTakes(channels, event, name) {
        SiftExactly(d.candidates, channels, event, name);
      }
      if final != [] {
        assert final[0] in final;
      }
    }
  }
}
