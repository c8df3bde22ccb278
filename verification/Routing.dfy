/** The output rule language and what it means: which channels an event goes to.

    `Decide` is the reference meaning, stated by what it picks (the first matching
    base rule, the last applicable override, the deliverable channels). The two
    interpreters of the repository, outputs/router.py and
    outputs/seed_tools/router_seed.py, follow in modules of their own. */
module Routing {
  import opened Common

  datatype Channels = AllAvailable | Listed(names: seq<string>)

  datatype RuleMatch = RuleMatch(category: Option<string>, urgency: Option<string>, urgencyBelow: Option<string>,
                                 state: Option<string>, sourceTool: Option<string>)

  datatype RuleAction = RuleAction(channels: Channels, exceptUrgency: seq<string>, deferToDigest: bool, isOverride: bool)

  datatype Rule = Rule(position: int, on: RuleMatch, action: RuleAction)

  /** An output event; `expired` is the outcome of `is_expired` at routing time. */
  datatype Event = Event(category: string, urgency: string, sensitivity: string, sourceTool: string,
                         hasActions: bool, expired: bool)

  datatype Manifest = Manifest(name: string, tolerance: string, actions: bool)

  /** The state flags that are truthy. */
  type UserState = set<string>

  datatype Decision = Decision(matched: seq<int>, candidates: seq<string>, filtered: map<string, string>,
                               dispatched: seq<string>, expired: bool)

  /** `URGENCY_RANK.get(urgency, default)`. */
  function UrgencyRank(urgency: string, default: int): int {
    if urgency == "ambient" then 0
    else if urgency == "soft" then 1
    else if urgency == "persistent" then 2
    else if urgency == "urgent" then 3
    else default
  }

  function SensitivityRank(level: string, default: int): int {
    if level == "public" then 0 else if level == "personal" then 1 else if level == "private" then 2 else default
  }

  /** `_match_rule`. */
  predicate RuleMatches(rule: Rule, event: Event, state: UserState) {
    var m := rule.on;
    && (m.category.Some? ==> m.category.value == event.category)
    && (m.urgency.Some? ==> m.urgency.value == event.urgency)
    && (m.urgencyBelow.Some? ==> UrgencyRank(event.urgency, 0) < UrgencyRank(m.urgencyBelow.value, 99))
    && (m.state.Some? ==> m.state.value in state)
    && (m.sourceTool.Some? ==> m.sourceTool.value == event.sourceTool)
  }

  function Names(channels: seq<Manifest>): (names: seq<string>)
    ensures |names| == |channels| && forall i :: 0 <= i < |channels| ==> names[i] == channels[i].name
  {
    seq(|channels|, i requires 0 <= i < |channels| => channels[i].name)
  }

  /** `registry.get`. */
  function Lookup(channels: seq<Manifest>, name: string): (found: Option<Manifest>)
    ensures found.Some? ==> found.value in channels && found.value.name == name
    ensures found.None? ==> name !in Names(channels)
  {
    if channels == [] then None
    else
      var last := channels[|channels| - 1];
      if last.name == name then Some(last)
      else
        assert forall i :: 0 <= i < |channels| - 1 ==> Names(channels)[i] == Names(channels[..|channels| - 1])[i];
        Lookup(channels[..|channels| - 1], name)
  }

  /** The default `can_deliver`: why a channel cannot carry the event, if so. */
  function Refusal(m: Manifest, event: Event): Option<string> {
    if SensitivityRank(event.sensitivity, 2) > SensitivityRank(m.tolerance, 0) then Some("sensitivity exceeds channel tolerance")
    else if event.hasActions && !m.actions then Some("channel cannot capture actions")
    else None
  }

  /** Why the router filters a candidate, if so. `limited` are the rate-limited names. */
  function FilterReason(channels: seq<Manifest>, limited: set<string>, event: Event, name: string): Option<string> {
    var ch := Lookup(channels, name);
    if ch.None? then Some("not installed")
    else if Refusal(ch.value, event).Some? then Refusal(ch.value, event)
    else if name in limited then Some("rate-limited")
    else None
  }

  function Resolve(channels: Channels, installed: seq<Manifest>): seq<string> {
    match channels
    case AllAvailable => Names(installed)
    case Listed(names) => names
  }

  // ---------------------------------------------------------------------------
  // The meaning of a rule table
  // ---------------------------------------------------------------------------

  function MatchedPositions(rules: seq<Rule>, event: Event, state: UserState): seq<int> {
    if rules == [] then []
    else
      var last := rules[|rules| - 1];
      MatchedPositions(rules[..|rules| - 1], event, state) + (if RuleMatches(last, event, state) then [last.position] else [])
  }

  predicate IsBase(rule: Rule, event: Event, state: UserState) {
    !rule.action.isOverride && RuleMatches(rule, event, state)
  }

  predicate Overrides(rule: Rule, event: Event, state: UserState) {
    rule.action.isOverride && RuleMatches(rule, event, state) && event.urgency !in rule.action.exceptUrgency
  }

  /** The first matching rule that is not an override. */
  function FirstBase(rules: seq<Rule>, event: Event, state: UserState): (first: Option<Rule>)
    ensures first.Some? <==> exists r :: r in rules && IsBase(r, event, state)
  {
    if rules == [] then None
    else if IsBase(rules[0], event, state) then Some(rules[0])
    else FirstBase(rules[1..], event, state)
  }

  /** The last matching override that does not exempt the event's urgency. */
  function LastOverride(rules: seq<Rule>, event: Event, state: UserState): (last: Option<Rule>)
    ensures last.Some? <==> exists r :: r in rules && Overrides(r, event, state)
    ensures last.Some? ==> last.value in rules && Overrides(last.value, event, state)
  {
    if rules == [] then None
    else
      var rule := rules[|rules| - 1];
      if Overrides(rule, event, state) then Some(rule) else LastOverride(rules[..|rules| - 1], event, state)
  }

  /** What an override puts in place of the channel list. */
  function Replacement(rule: Rule, installed: seq<Manifest>): seq<string> {
    if rule.action.deferToDigest then ["digest"] else Resolve(rule.action.channels, installed)
  }

  /** `pick` is the answer of the LLM fallback, if it gives one. */
  function Candidates(rules: seq<Rule>, event: Event, state: UserState, installed: seq<Manifest>,
                      pick: Option<seq<string>>): seq<string>
  {
    var override := LastOverride(rules, event, state);
    var base := FirstBase(rules, event, state);
    if override.Some? then Replacement(override.value, installed)
    else if base.Some? then Resolve(base.value.action.channels, installed)
    else if pick.Some? then pick.value
    else ["digest"]
  }

  function Deliverable(names: seq<string>, installed: seq<Manifest>, limited: set<string>, event: Event): seq<string> {
    Filter(names, n => FilterReason(installed, limited, event, n).None?)
  }

  function Refused(names: seq<string>, installed: seq<Manifest>, limited: set<string>, event: Event): map<string, string> {
    map n <- names | FilterReason(installed, limited, event, n).Some? :: FilterReason(installed, limited, event, n).value
  }

  /** Where an event goes when no candidate can take it. */
  function Fallback(installed: seq<Manifest>, event: Event): seq<string> {
    if event.urgency == "urgent" && "web_toast" in Names(installed) then ["web_toast"]
    else if "digest" in Names(installed) then ["digest"]
    else []
  }

  function Decide(rules: seq<Rule>, event: Event, state: UserState, installed: seq<Manifest>, limited: set<string>,
                  pick: Option<seq<string>>): Decision
  {
    if event.expired then Decision([], [], map[], [], true)
    else
      var candidates := Candidates(rules, event, state, installed, pick);
      var final := Deliverable(candidates, installed, limited, event);
      Decision(MatchedPositions(rules, event, state), candidates, Refused(candidates, installed, limited, event),
               if final == [] then Fallback(installed, event) else final, false)
  }

  lemma OneMoreName(names: seq<string>, name: string, installed: seq<Manifest>, limited: set<string>, event: Event)
    ensures var reason := FilterReason(installed, limited, event, name);
      && Deliverable(names + [name], installed, limited, event)
         == Deliverable(names, installed, limited, event) + (if reason.None? then [name] else [])
      && Refused(names + [name], installed, limited, event)
         == if reason.Some? then Refused(names, installed, limited, event)[name := reason.value]
            else Refused(names, installed, limited, event)
  {
    assert (names + [name])[..|names|] == names;
  }

  // ---------------------------------------------------------------------------
  // How the meaning follows the table
  // ---------------------------------------------------------------------------

  lemma {:induction false} FirstBaseOfConcat(xs: seq<Rule>, ys: seq<Rule>, event: Event, state: UserState)
    ensures FirstBase(xs + ys, event, state)
         == if FirstBase(xs, event, state).Some? then FirstBase(xs, event, state) else FirstBase(ys, event, state)
  {
    if xs == [] {
      assert xs + ys == ys;
    } else {
      assert (xs + ys)[1..] == xs[1..] + ys;
      FirstBaseOfConcat(xs[1..], ys, event, state);
    }
  }

  lemma {:induction false} LastOverrideOfConcat(xs: seq<Rule>, ys: seq<Rule>, event: Event, state: UserState)
    ensures LastOverride(xs + ys, event, state)
         == if LastOverride(ys, event, state).Some? then LastOverride(ys, event, state) else LastOverride(xs, event, state)
  {
    if ys == [] {
      assert xs + ys == xs;
    } else {
      var n := |ys| - 1;
      assert (xs + ys)[..|xs| + n] == xs + ys[..n];
      LastOverrideOfConcat(xs, ys[..n], event, state);
    }
  }

  // ---------------------------------------------------------------------------
  // Which channels an event reaches
  // ---------------------------------------------------------------------------

  /** The privacy gate: a public event may go anywhere, a personal one to a channel that
      tolerates personal or private ones, and any other only to one for private ones. */
  predicate MayCarry(tolerance: string, sensitivity: string) {
    sensitivity == "public" || tolerance == "private" || (sensitivity == "personal" && tolerance == "personal")
  }

  /** The installed channel of this name may carry the event, can capture its actions if
      it has any, and is not rate-limited. */
  predicate Takes(installed: seq<Manifest>, limited: set<string>, event: Event, name: string) {
    var ch := Lookup(installed, name);
    ch.Some? && MayCarry(ch.value.tolerance, event.sensitivity) && (event.hasActions ==> ch.value.actions) && name !in limited
  }

  /** When a channel refuses an event, and what it says. */
  lemma RefusalIsPrivacyOrActions(m: Manifest, event: Event)
    ensures Refusal(m, event) == Some("sensitivity exceeds channel tolerance")
      <==> || (event.sensitivity !in {"public", "personal"} && m.tolerance != "private")
           || (event.sensitivity == "personal" && m.tolerance !in {"personal", "private"})
    ensures Refusal(m, event) == Some("channel cannot capture actions")
      <==> MayCarry(m.tolerance, event.sensitivity) && event.hasActions && !m.actions
    ensures Refusal(m, event) == None <==> MayCarry(m.tolerance, event.sensitivity) && (event.hasActions ==> m.actions)
  {
    var tooPrivate, noActions := "sensitivity exceeds channel tolerance", "channel cannot capture actions";
    assert tooPrivate[0] != noActions[0];
  }

  lemma FilterReasonIsTakes(installed: seq<Manifest>, limited: set<string>, event: Event, name: string)
    ensures FilterReason(installed, limited, event, name).None? <==> Takes(installed, limited, event, name)
  {
    if Lookup(installed, name).Some? {
      RefusalIsPrivacyOrActions(Lookup(installed, name).value, event);
    }
  }

  /** Whatever the table: if some candidate takes the event, exactly the candidates that
      do are dispatched; otherwise an urgent event falls back to the toast, and any event
      to the digest, if there is one. An expired event goes nowhere. */
  lemma DispatchedExactly(rules: seq<Rule>, event: Event, state: UserState, installed: seq<Manifest>, limited: set<string>,
                          pick: Option<seq<string>>)
    ensures var d := Decide(rules, event, state, installed, limited, pick);
      if event.expired then d == Decision([], [], map[], [], true)
      else if exists n :: n in d.candidates && Takes(installed, limited, event, n) then
        forall name :: name in d.dispatched <==> name in d.candidates && Takes(installed, limited, event, name)
      else
        d.dispatched == (if event.urgency == "urgent" && "web_toast" in Names(installed) then ["web_toast"]
                         else if "digest" in Names(installed) then ["digest"] else [])
  {
    if !event.expired {
      var candidates := Candidates(rules, event, state, installed, pick);
      var final := Deliverable(candidates, installed, limited, event);
      forall name ensures name in final <==> name in candidates && Takes(installed, limited, event, name) {
        FilterMember(candidates, n => FilterReason(installed, limited, event, n).None?, name);
        FilterReasonIsTakes(installed, limited, event, name);
      }
      if final != [] {
        assert final[0] in final;
      }
    }
  }

  /** The filtered names are the candidates that do not take the event, each with the
      first obstacle it meets. */
  lemma FilteredExactly(rules: seq<Rule>, event: Event, state: UserState, installed: seq<Manifest>, limited: set<string>,
                        pick: Option<seq<string>>, name: string)
    requires !event.expired
    ensures var d := Decide(rules, event, state, installed, limited, pick);
      var ch := Lookup(installed, name);
      && (name in d.filtered <==> name in d.candidates && !Takes(installed, limited, event, name))
      && (name in d.filtered ==>
            d.filtered[name] == (if ch.None? then "not installed"
                                 else if !MayCarry(ch.value.tolerance, event.sensitivity) then "sensitivity exceeds channel tolerance"
                                 else if event.hasActions && !ch.value.actions then "channel cannot capture actions"
                                 else "rate-limited"))
  {
    FilterReasonIsTakes(installed, limited, event, name);
    if Lookup(installed, name).Some? {
      RefusalIsPrivacyOrActions(Lookup(installed, name).value, event);
    }
  }

  /** Whatever the table, every dispatched channel is installed, and unless the
      fallback chose it, it is a candidate that takes the event: private events stay with
      channels for private ones, actions with channels that capture them, and nothing
      goes to a channel that is rate-limited. */
  lemma DispatchedIsInstalled(rules: seq<Rule>, event: Event, state: UserState, installed: seq<Manifest>, limited: set<string>,
                              pick: Option<seq<string>>, name: string)
    requires name in Decide(rules, event, state, installed, limited, pick).dispatched
    ensures name in Names(installed)
    ensures var d := Decide(rules, event, state, installed, limited, pick);
      (name in d.candidates && Takes(installed, limited, event, name)) || d.dispatched == Fallback(installed, event)
  {
    var candidates := Candidates(rules, event, state, installed, pick);
    FilterMember(candidates, n => FilterReason(installed, limited, event, n).None?, name);
    FilterReasonIsTakes(installed, limited, event, name);
    if FilterReason(installed, limited, event, name).None? {
      var m := Lookup(installed, name).value;
      var k :| 0 <= k < |installed| && installed[k] == m;
      assert Names(installed)[k] == name;
    }
  }
}
