/** `route` of outputs/router.py, loop by loop. */
module InProcessRouter {
  import opened Common
  import opened Routing

  /** The matching overrides, applicable or not, in table order. */
  function MatchingOverrides(rules: seq<Rule>, event: Event, state: UserState): seq<Rule> {
    Filter(rules, (r: Rule) => r.action.isOverride && RuleMatches(r, event, state))
  }

  /** Dropping what does not match changes no override. */
  lemma {:induction false} LastOverrideOfMatching(rules: seq<Rule>, event: Event, state: UserState)
    ensures LastOverride(MatchingOverrides(rules, event, state), event, state) == LastOverride(rules, event, state)
  {
    if rules != [] {
      var n := |rules| - 1;
      LastOverrideOfMatching(rules[..n], event, state);
      LastOverrideOfConcat(MatchingOverrides(rules[..n], event, state), [rules[n]], event, state);
      assert MatchingOverrides(rules[..n], event, state) + [] == MatchingOverrides(rules[..n], event, state);
    }
  }

  function BaseChannels(rule: Option<Rule>, installed: seq<Manifest>): Option<seq<string>> {
    if rule.Some? then Some(Resolve(rule.value.action.channels, installed)) else None
  }

  method Scan(rules: seq<Rule>, event: Event, state: UserState, installed: seq<Manifest>)
    returns (matchedPositions: seq<int>, baseChannels: Option<seq<string>>, overrides: seq<Rule>)
    ensures matchedPositions == MatchedPositions(rules, event, state)
    ensures baseChannels == BaseChannels(FirstBase(rules, event, state), installed)
    ensures overrides == MatchingOverrides(rules, event, state)
  {
    matchedPositions, baseChannels, overrides := [], None, [];
    for i := 0 to |rules|
      invariant matchedPositions == MatchedPositions(rules[..i], event, state)
      invariant baseChannels == BaseChannels(FirstBase(rules[..i], event, state), installed)
      invariant overrides == MatchingOverrides(rules[..i], event, state)
    {
      var rule := rules[i];
      assert rules[..i + 1][..i] == rules[..i] && rules[..i + 1] == rules[..i] + [rule];
      FirstBaseOfConcat(rules[..i], [rule], event, state);
      if !RuleMatches(rule, event, state) {
        continue;
      }
      matchedPositions := matchedPositions + [rule.position];
      if rule.action.isOverride {
        overrides := overrides + [rule];
        continue;
      }
      if baseChannels == None {
        baseChannels := if rule.action.channels == AllAvailable then Some(Names(installed)) else Some(rule.action.channels.names);
      }
    }
    assert rules[..|rules|] == rules;
  }

  method ApplyOverrides(base: seq<string>, overrides: seq<Rule>, event: Event, state: UserState, installed: seq<Manifest>)
    returns (channels: seq<string>)
    requires forall r <- overrides :: r.action.isOverride && RuleMatches(r, event, state)
    ensures channels == if LastOverride(overrides, event, state).Some?
                        then Replacement(LastOverride(overrides, event, state).value, installed) else base
  {
    channels := base;
    for i := 0 to |overrides|
      invariant channels == if LastOverride(overrides[..i], event, state).Some?
                            then Replacement(LastOverride(overrides[..i], event, state).value, installed) else base
    {
      var ov := overrides[i];
      assert overrides[..i + 1][..i] == overrides[..i];
      if event.urgency in ov.action.exceptUrgency {
        continue;
      }
      if ov.action.deferToDigest {
        channels := ["digest"];
        continue;
      }
      channels := if ov.action.channels == AllAvailable then Names(installed) else ov.action.channels.names;
    }
    assert overrides[..|overrides|] == overrides;
  }

  method FilterChannels(names: seq<string>, event: Event, installed: seq<Manifest>, limited: set<string>)
    returns (final: seq<string>, filtered: map<string, string>)
    ensures final == Deliverable(names, installed, limited, event)
    ensures filtered == Refused(names, installed, limited, event)
  {
    final, filtered := [], map[];
    for i := 0 to |names|
      invariant final == Deliverable(names[..i], installed, limited, event)
      invariant filtered == Refused(names[..i], installed, limited, event)
    {
      var name := names[i];
      assert names[..i + 1] == names[..i] + [name];
      OneMoreName(names[..i], name, installed, limited, event);
      var ch := Lookup(installed, name);
      if ch.None? {
        filtered := filtered[name := "not installed"];
        continue;
      }
      var reason := Refusal(ch.value, event);
      if reason.Some? {
        filtered := filtered[name := reason.value];
        continue;
      }
      if name in limited {
        filtered := filtered[name := "rate-limited"];
        continue;
      }
      final := final + [name];
    }
    assert names[..|names|] == names;
  }

  method Route(event: Event, state: UserState, rules: seq<Rule>, installed: seq<Manifest>, limited: set<string>,
               llmPick: Option<seq<string>>) returns (decision: Decision)
    ensures decision == Decide(rules, event, state, installed, limited, llmPick)
  {
    if event.expired {
      return Decision([], [], map[], [], true);
    }
    var matchedPositions, baseChannels, overrides := Scan(rules, event, state, installed);
    var base := ["digest"];
    if baseChannels.Some? {
      base := baseChannels.value;
    } else if llmPick.Some? {
      base := llmPick.value;
    }
    forall r <- overrides ensures r.action.isOverride && RuleMatches(r, event, state) {
      FilterMember(rules, (r': Rule) => r'.action.isOverride && RuleMatches(r', event, state), r);
    }
    LastOverrideOfMatching(rules, event, state);
    var channels := ApplyOverrides(base, overrides, event, state, installed);
    var final, filtered := FilterChannels(channels, event, installed, limited);
    if final == [] {
      if event.urgency == "urgent" && "web_toast" in Names(installed) {
        final := ["web_toast"];
      } else if "digest" in Names(installed) {
        final := ["digest"];
      }
    }
    decision := Decision(matchedPositions, channels, filtered, final, false);
  }
}
