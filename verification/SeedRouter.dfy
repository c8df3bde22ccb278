/** `route` of outputs/seed_tools/router_seed.py: the same rule language, written
    independently over plain dictionaries, and the proof that the two interpreters
    agree on every rule table. */
module SeedRouter {
  import opened Common
  import opened Routing

  /** Dictionaries with optional keys. A missing key is `None`. */
  datatype SeedAction = SeedAction(channels: Option<Channels>, exceptUrgency: Option<seq<string>>,
                                   deferToDigest: Option<bool>, isOverride: Option<bool>)
  datatype SeedRule = SeedRule(position: int, on: map<string, string>, action: SeedAction)
  datatype SeedEvent = SeedEvent(fields: map<string, string>, actions: bool, expired: bool)
  datatype SeedChannel = SeedChannel(name: string, tolerance: Option<string>, actions: Option<bool>)

  function Get(m: map<string, string>, key: string): Option<string> {
    if key in m then Some(m[key]) else None
  }

  function GetOr<T>(value: Option<T>, default: T): T {
    if value.Some? then value.value else default
  }

  /** `matches`. */
  predicate SeedMatches(rule: SeedRule, event: SeedEvent, state: UserState) {
    var m := rule.on;
    && ("category" in m ==> Some(m["category"]) == Get(event.fields, "category"))
    && ("urgency" in m ==> Some(m["urgency"]) == Get(event.fields, "urgency"))
    && ("urgency_below" in m ==>
          UrgencyRank(GetOr(Get(event.fields, "urgency"), ""), 0) < UrgencyRank(m["urgency_below"], 99))
    && ("state" in m ==> m["state"] in state)
    && ("source_tool" in m ==> Some(m["source_tool"]) == Get(event.fields, "source_tool"))
  }

  function SeedNames(channels: seq<SeedChannel>): (names: seq<string>)
    ensures |names| == |channels| && forall i :: 0 <= i < |channels| ==> names[i] == channels[i].name
  {
    seq(|channels|, i requires 0 <= i < |channels| => channels[i].name)
  }

  /** The `by_name` dictionary: of two channels with one name the later one stays. */
  function ByName(channels: seq<SeedChannel>): map<string, SeedChannel> {
    if channels == [] then map[]
    else
      var last := channels[|channels| - 1];
      ByName(channels[..|channels| - 1])[last.name := last]
  }

  function SeedList(channels: Option<Channels>, available: seq<string>): seq<string> {
    match GetOr(channels, Listed([]))
    case AllAvailable => available
    case Listed(names) => names
  }

  /** The first loop: base channels and overrides, in one pass. */
  datatype Pass = Pass(matched: seq<int>, base: Option<seq<string>>, overrides: seq<SeedRule>)

  function ScanRules(rules: seq<SeedRule>, event: SeedEvent, state: UserState, available: seq<string>): Pass {
    if rules == [] then Pass([], None, [])
    else
      var rule := rules[|rules| - 1];
      var p := ScanRules(rules[..|rules| - 1], event, state, available);
      if !SeedMatches(rule, event, state) then p
      else
        var q := p.(matched := p.matched + [rule.position]);
        if GetOr(rule.action.isOverride, false) then q.(overrides := q.overrides + [rule])
        else if q.base == None then q.(base := Some(SeedList(rule.action.channels, available)))
        else q
  }

  /** The second loop. */
  function OverrideBase(base: seq<string>, overrides: seq<SeedRule>, event: SeedEvent, available: seq<string>): seq<string> {
    if overrides == [] then base
    else
      var ov := overrides[|overrides| - 1];
      var before := OverrideBase(base, overrides[..|overrides| - 1], event, available);
      if Exempt(ov, event) then before
      else if GetOr(ov.action.deferToDigest, false) then ["digest"]
      else SeedList(ov.action.channels, available)
  }

  predicate Exempt(ov: SeedRule, event: SeedEvent) {
    var urgency := Get(event.fields, "urgency");
    urgency.Some? && urgency.value in GetOr(ov.action.exceptUrgency, [])
  }

  /** Why the third loop skips a name, if it does. */
  function SeedReason(byName: map<string, SeedChannel>, event: SeedEvent, name: string): Option<string> {
    if name !in byName then Some("not installed")
    else
      var cm := byName[name];
      if SensitivityRank(GetOr(Get(event.fields, "sensitivity"), "personal"), 2)
         > SensitivityRank(GetOr(cm.tolerance, "personal"), 0) then Some("sensitivity exceeds channel tolerance")
      else if event.actions && !GetOr(cm.actions, false) then Some("channel cannot capture actions")
      else None
  }

  datatype Sifted = Sifted(final: seq<string>, filtered: map<string, string>)

  /** The third loop. */
  function Sift(names: seq<string>, byName: map<string, SeedChannel>, event: SeedEvent): Sifted {
    if names == [] then Sifted([], map[])
    else
      var name := names[|names| - 1];
      var before := Sift(names[..|names| - 1], byName, event);
      var reason := SeedReason(byName, event, name);
      if reason.Some? then before.(filtered := before.filtered[name := reason.value])
      else before.(final := before.final + [name])
  }

  function SeedFallback(available: seq<string>, event: SeedEvent): seq<string> {
    if Get(event.fields, "urgency") == Some("urgent") && "web_toast" in available then ["web_toast"]
    else if "digest" in available then ["digest"]
    else []
  }

  function SeedDecide(rules: seq<SeedRule>, event: SeedEvent, channels: seq<SeedChannel>, state: UserState): Decision {
    if event.expired then Decision([], [], map[], [], true)
    else
      var available := SeedNames(channels);
      var p := ScanRules(rules, event, state, available);
      var base := OverrideBase(GetOr(p.base, ["digest"]), p.overrides, event, available);
      var sifted := Sift(base, ByName(channels), event);
      Decision(p.matched, base, sifted.filtered,
               if sifted.final == [] then SeedFallback(available, event) else sifted.final, false)
  }

  /** The tool's `route`, with its three loops. */
  method Route(rules: seq<SeedRule>, event: SeedEvent, channels: seq<SeedChannel>, state: UserState) returns (out: Decision)
    ensures out == SeedDecide(rules, event, channels, state)
  {
    if event.expired {
      return Decision([], [], map[], [], true);
    }
    var available, byName := SeedNames(channels), ByName(channels);
    var matched: seq<int>, first: Option<seq<string>>, overrides: seq<SeedRule> := [], None, [];
    for i := 0 to |rules|
      invariant Pass(matched, first, overrides) == ScanRules(rules[..i], event, state, available)
    {
      assert rules[..i + 1][..i] == rules[..i];
      var rule := rules[i];
      if !SeedMatches(rule, event, state) {
        continue;
      }
      matched := matched + [rule.position];
      if GetOr(rule.action.isOverride, false) {
        overrides := overrides + [rule];
        continue;
      }
      if first == None {
        first := Some(SeedList(rule.action.channels, available));
      }
    }
    assert rules[..|rules|] == rules;

    var base := if first == None then ["digest"] else first.value;
    ghost var start := base;
    for i := 0 to |overrides|
      invariant base == OverrideBase(start, overrides[..i], event, available)
    {
      assert overrides[..i + 1][..i] == overrides[..i];
      var ov := overrides[i];
      if Exempt(ov, event) {
        continue;
      }
      if GetOr(ov.action.deferToDigest, false) {
        base := ["digest"];
        continue;
      }
      base := SeedList(ov.action.channels, available);
    }
    assert overrides[..|overrides|] == overrides;

    var final: seq<string>, filtered: map<string, string> := [], map[];
    for i := 0 to |base|
      invariant Sifted(final, filtered) == Sift(base[..i], byName, event)
    {
      assert base[..i + 1][..i] == base[..i];
      var reason := SeedReason(byName, event, base[i]);
      if reason.Some? {
        filtered := filtered[base[i] := reason.value];
        continue;
      }
      final := final + [base[i]];
    }
    assert base[..|base|] == base;
    if final == [] {
      final := SeedFallback(available, event);
    }
    out := Decision(matched, base, filtered, final, false);
  }

  // ---------------------------------------------------------------------------
  // Translation, key by key
  // ---------------------------------------------------------------------------

  /** A key that is present holds the value; one that is absent means the default. */
  predicate Says<T(==)>(key: Option<T>, value: T, default: T) {
    if key.Some? then key.value == value else value == default
  }

  predicate SameMatch(on: RuleMatch, m: map<string, string>) {
    && Get(m, "category") == on.category
    && Get(m, "urgency") == on.urgency
    && Get(m, "urgency_below") == on.urgencyBelow
    && Get(m, "state") == on.state
    && Get(m, "source_tool") == on.sourceTool
  }

  predicate SameRule(rule: Rule, seed: SeedRule) {
    && seed.position == rule.position
    && SameMatch(rule.on, seed.on)
    && Says(seed.action.channels, rule.action.channels, Listed([]))
    && Says(seed.action.exceptUrgency, rule.action.exceptUrgency, [])
    && Says(seed.action.deferToDigest, rule.action.deferToDigest, false)
    && Says(seed.action.isOverride, rule.action.isOverride, false)
  }

  predicate SameRules(rules: seq<Rule>, seeds: seq<SeedRule>) {
    |rules| == |seeds| && forall i :: 0 <= i < |rules| ==> SameRule(rules[i], seeds[i])
  }

  predicate SameEvent(event: Event, seed: SeedEvent) {
    && Get(seed.fields, "category") == Some(event.category)
    && Get(seed.fields, "urgency") == Some(event.urgency)
    && Get(seed.fields, "source_tool") == Some(event.sourceTool)
    && Says(Get(seed.fields, "sensitivity"), event.sensitivity, "personal")
    && seed.actions == event.hasActions && seed.expired == event.expired
  }

  predicate SameChannels(installed: seq<Manifest>, seeds: seq<SeedChannel>) {
    && |installed| == |seeds|
    && forall i :: 0 <= i < |installed| ==>
         && seeds[i].name == installed[i].name
         && Says(seeds[i].tolerance, installed[i].tolerance, "personal")
         && Says(seeds[i].actions, installed[i].actions, false)
  }

  // ---------------------------------------------------------------------------
  // The interpreters agree
  // ---------------------------------------------------------------------------

  lemma MatchesAgree(rule: Rule, seedRule: SeedRule, event: Event, seedEvent: SeedEvent, state: UserState)
    requires SameRule(rule, seedRule) && SameEvent(event, seedEvent)
    ensures RuleMatches(rule, event, state) == SeedMatches(seedRule, seedEvent, state)
  {
  }

  /** The one-pass scan finds the matched positions and the first base rule. */
  lemma {:induction false} ScanAgrees(rules: seq<Rule>, seeds: seq<SeedRule>, event: Event, seedEvent: SeedEvent,
                                      state: UserState, installed: seq<Manifest>)
    requires SameRules(rules, seeds) && SameEvent(event, seedEvent)
    ensures var p, first := ScanRules(seeds, seedEvent, state, Names(installed)), FirstBase(rules, event, state);
      && p.matched == MatchedPositions(rules, event, state)
      && p.base == (if first.Some? then Some(Resolve(first.value.action.channels, installed)) else None)
  {
    if rules != [] {
      var n := |rules| - 1;
      ScanAgrees(rules[..n], seeds[..n], event, seedEvent, state, installed);
      MatchesAgree(rules[n], seeds[n], event, seedEvent, state);
      FirstBaseOfConcat(rules[..n], [rules[n]], event, state);
      assert rules[..n] + [rules[n]] == rules;
    }
  }

  lemma OneMoreOverride(base: seq<string>, overrides: seq<SeedRule>, rule: Rule, seed: SeedRule,
                        event: Event, seedEvent: SeedEvent, installed: seq<Manifest>)
    requires SameRule(rule, seed) && SameEvent(event, seedEvent)
    ensures OverrideBase(base, overrides + [seed], seedEvent, Names(installed))
         == if event.urgency in rule.action.exceptUrgency then OverrideBase(base, overrides, seedEvent, Names(installed))
            else Replacement(rule, installed)
  {
    assert (overrides + [seed])[..|overrides|] == overrides;
  }

  /** Folding the overrides one after the other leaves what the last applicable one says. */
  lemma {:induction false} OverridesAgree(rules: seq<Rule>, seeds: seq<SeedRule>, event: Event, seedEvent: SeedEvent,
                                          state: UserState, installed: seq<Manifest>, base: seq<string>)
    requires SameRules(rules, seeds) && SameEvent(event, seedEvent)
    ensures var p, last := ScanRules(seeds, seedEvent, state, Names(installed)), LastOverride(rules, event, state);
      OverrideBase(base, p.overrides, seedEvent, Names(installed))
      == (if last.Some? then Replacement(last.value, installed) else base)
  {
    if rules != [] {
      var n := |rules| - 1;
      OverridesAgree(rules[..n], seeds[..n], event, seedEvent, state, installed, base);
      MatchesAgree(rules[n], seeds[n], event, seedEvent, state);
      var p := ScanRules(seeds[..n], seedEvent, state, Names(installed));
      OneMoreOverride(base, p.overrides, rules[n], seeds[n], event, seedEvent, installed);
    }
  }

  lemma {:induction false} ByNameAgrees(installed: seq<Manifest>, seeds: seq<SeedChannel>, name: string)
    requires SameChannels(installed, seeds)
    ensures name in ByName(seeds) <==> Lookup(installed, name).Some?
    ensures name in ByName(seeds) ==>
      && Says(ByName(seeds)[name].tolerance, Lookup(installed, name).value.tolerance, "personal")
      && Says(ByName(seeds)[name].actions, Lookup(installed, name).value.actions, false)
  {
    if installed != [] {
      var n := |installed| - 1;
      ByNameAgrees(installed[..n], seeds[..n], name);
    }
  }

  lemma {:induction false} ReasonsAgree(installed: seq<Manifest>, seeds: seq<SeedChannel>, event: Event, seedEvent: SeedEvent, name: string)
    requires SameChannels(installed, seeds) && SameEvent(event, seedEvent)
    ensures SeedReason(ByName(seeds), seedEvent, name) == FilterReason(installed, {}, event, name)
  {
    ByNameAgrees(installed, seeds, name);
  }

  lemma {:induction false} SiftAgrees(names: seq<string>, installed: seq<Manifest>, seeds: seq<SeedChannel>,
                                      event: Event, seedEvent: SeedEvent)
    requires SameChannels(installed, seeds) && SameEvent(event, seedEvent)
    ensures Sift(names, ByName(seeds), seedEvent)
         == Sifted(Deliverable(names, installed, {}, event), Refused(names, installed, {}, event))
  {
    if names != [] {
      var n := |names| - 1;
      SiftAgrees(names[..n], installed, seeds, event, seedEvent);
      ReasonsAgree(installed, seeds, event, seedEvent, names[n]);
      OneMoreName(names[..n], names[n], installed, {}, event);
      assert names == names[..n] + [names[n]];
    }
  }

  /** For every rule table and its key-by-key translation, every event, state and
      channel list, the seed tool decides what the in-process router decides when
      the LLM picks nothing and no channel is rate-limited: the same matched rules,
      candidates, filter reasons, dispatched channels and expiry. */
  lemma InterpretersAgree(rules: seq<Rule>, seedRules: seq<SeedRule>, event: Event, seedEvent: SeedEvent,
                          state: UserState, installed: seq<Manifest>, seedChannels: seq<SeedChannel>)
    requires SameRules(rules, seedRules) && SameEvent(event, seedEvent) && SameChannels(installed, seedChannels)
    ensures SeedDecide(seedRules, seedEvent, seedChannels, state) == Decide(rules, event, state, installed, {}, None)
  {
    if !event.expired {
      var available := SeedNames(seedChannels);
      assert available == Names(installed);
      var p := ScanRules(seedRules, seedEvent, state, available);
      ScanAgrees(rules, seedRules, event, seedEvent, state, installed);
      OverridesAgree(rules, seedRules, event, seedEvent, state, installed, GetOr(p.base, ["digest"]));
      var candidates := Candidates(rules, event, state, installed, None);
      assert OverrideBase(GetOr(p.base, ["digest"]), p.overrides, seedEvent, available) == candidates;
      SiftAgrees(candidates, installed, seedChannels, event, seedEvent);
      assert SeedFallback(available, seedEvent) == Fallback(installed, event);
    }
  }
}
