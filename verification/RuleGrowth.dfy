/** How the rule table grows: LLM picks are recorded as proposals
    (outputs/router.py), the user accepts or dismisses them (routes/outputs.py), and
    an accepted proposal becomes a rule at position 100. The theorems say what that
    can and cannot change about routing. */
module RuleGrowth {
  import opened Common
  import opened Routing

  const PROMOTED: int := 100

  /** The override at position 200 of `DEFAULT_RULES`. */
  const DoNotDisturb: Rule :=
    Rule(200, RuleMatch(None, None, None, Some("do_not_disturb"), None), RuleAction(Listed(["digest"]), ["urgent"], false, true))

  /** The override at position 210 of `DEFAULT_RULES`. */
  const Asleep: Rule :=
    Rule(210, RuleMatch(None, None, Some("urgent"), Some("asleep"), None), RuleAction(Listed([]), [], true, true))

  function CategoryRule(position: int, category: string, channels: seq<string>): Rule {
    Rule(position, RuleMatch(Some(category), None, None, None, None), RuleAction(Listed(channels), [], false, false))
  }

  /** `DEFAULT_RULES`. */
  const DefaultRules: seq<Rule> := [
    Rule(10, RuleMatch(None, Some("urgent"), None, None, None), RuleAction(AllAvailable, [], false, false)),
    Rule(20, RuleMatch(Some("intervention"), Some("persistent"), None, None, None),
         RuleAction(Listed(["web_persistent", "web_toast"]), [], false, false)),
    CategoryRule(30, "permission_request", ["web_toast"]),
    CategoryRule(40, "completion", ["web_toast"]),
    CategoryRule(50, "reminder", ["web_persistent"]),
    CategoryRule(60, "alert", ["web_toast", "web_persistent"]),
    CategoryRule(70, "status", ["digest"]),
    CategoryRule(80, "progress", ["web_toast"]),
    CategoryRule(90, "query", ["web_toast"]),
    DoNotDisturb,
    Asleep]

  // ---------------------------------------------------------------------------
  // The table in the order `load_rules` reads it
  // ---------------------------------------------------------------------------

  /** Places a row with the highest id: after every rule of no greater position. */
  function Insert(sorted: seq<Rule>, rule: Rule): seq<Rule> {
    if sorted == [] then [rule]
    else
      var last := sorted[|sorted| - 1];
      if last.position <= rule.position then sorted + [rule]
      else Insert(sorted[..|sorted| - 1], rule) + [last]
  }

  /** ORDER BY position ASC, id ASC, over the rows in id order. */
  function InTableOrder(rows: seq<Rule>): seq<Rule> {
    if rows == [] then [] else Insert(InTableOrder(rows[..|rows| - 1]), rows[|rows| - 1])
  }

  predicate Sorted(rules: seq<Rule>) {
    forall i, j :: 0 <= i < j < |rules| ==> rules[i].position <= rules[j].position
  }

  /** The rules a row inserted at `position` comes after. */
  function UpTo(rules: seq<Rule>, position: int): seq<Rule> {
    if rules == [] then []
    else if rules[|rules| - 1].position <= position then rules
    else UpTo(rules[..|rules| - 1], position)
  }

  lemma {:induction false} UpToIsPrefix(rules: seq<Rule>, position: int)
    ensures UpTo(rules, position) <= rules
    ensures forall r <- rules[|UpTo(rules, position)|..] :: r.position > position
  {
    if rules != [] && rules[|rules| - 1].position > position {
      var n := |rules| - 1;
      UpToIsPrefix(rules[..n], position);
      var k := |UpTo(rules, position)|;
      assert rules[k..] == rules[..n][k..] + [rules[n]];
    }
  }

  lemma {:induction false} InsertSplits(rules: seq<Rule>, rule: Rule)
    ensures UpTo(rules, rule.position) <= rules
    ensures Insert(rules, rule) == UpTo(rules, rule.position) + [rule] + rules[|UpTo(rules, rule.position)|..]
  {
    UpToIsPrefix(rules, rule.position);
    if rules != [] && rules[|rules| - 1].position > rule.position {
      var n := |rules| - 1;
      InsertSplits(rules[..n], rule);
      var k := |UpTo(rules, rule.position)|;
      assert rules[k..] == rules[..n][k..] + [rules[n]];
    }
  }

  lemma {:induction false} InsertKeepsSorted(rules: seq<Rule>, rule: Rule)
    requires Sorted(rules)
    ensures Sorted(Insert(rules, rule))
  {
    if rules != [] && rules[|rules| - 1].position > rule.position {
      var n := |rules| - 1;
      InsertKeepsSorted(rules[..n], rule);
      InsertKeepsRows(rules[..n], rule);
      var shorter := Insert(rules[..n], rule);
      forall i | 0 <= i < |shorter| ensures shorter[i].position <= rules[n].position {
        assert shorter[i] in multiset(shorter);
        assert shorter[i] == rule || shorter[i] in rules[..n];
      }
    }
  }

  lemma {:induction false} TableOrderIsSorted(rows: seq<Rule>)
    ensures Sorted(InTableOrder(rows))
  {
    if rows != [] {
      var n := |rows| - 1;
      TableOrderIsSorted(rows[..n]);
      InsertKeepsSorted(InTableOrder(rows[..n]), rows[n]);
    }
  }

  lemma {:induction false} TableOrderKeepsRows(rows: seq<Rule>)
    ensures multiset(InTableOrder(rows)) == multiset(rows)
  {
    if rows != [] {
      var before, last := rows[..|rows| - 1], rows[|rows| - 1];
      TableOrderKeepsRows(before);
      TableOrderOneMore(before, last);
      assert rows == before + [last];
    }
  }

  lemma {:induction false} TableOrderOneMore(rows: seq<Rule>, rule: Rule)
    ensures InTableOrder(rows + [rule]) == Insert(InTableOrder(rows), rule)
    ensures multiset(InTableOrder(rows + [rule])) == multiset(InTableOrder(rows)) + multiset{rule}
  {
    assert (rows + [rule])[..|rows|] == rows;
    InsertKeepsRows(InTableOrder(rows), rule);
  }

  lemma {:induction false} InsertKeepsRows(sorted: seq<Rule>, rule: Rule)
    ensures multiset(Insert(sorted, rule)) == multiset(sorted) + multiset{rule}
  {
    if sorted != [] {
      var n := |sorted| - 1;
      InsertKeepsRows(sorted[..n], rule);
      assert sorted == sorted[..n] + [sorted[n]];
    }
  }

  // ---------------------------------------------------------------------------
  // Proposals
  // ---------------------------------------------------------------------------

  datatype Proposal = Proposal(category: string, urgency: string, channels: seq<string>, hits: nat,
                               accepted: bool, dismissed: bool)

  function Promoted(p: Proposal): Rule {
    Rule(PROMOTED, RuleMatch(Some(p.category), Some(p.urgency), None, None, None),
         RuleAction(Listed(p.channels), [], false, false))
  }

  // ---------------------------------------------------------------------------
  // What acceptance changes
  // ---------------------------------------------------------------------------

  /** The table after accepting `ps`, one after the other. */
  function Accepting(rows: seq<Rule>, ps: seq<Proposal>): seq<Rule> {
    if ps == [] then rows else Accepting(rows, ps[..|ps| - 1]) + [Promoted(ps[|ps| - 1])]
  }

  lemma PromotedOverride(before: seq<Rule>, p: Proposal, after: seq<Rule>, event: Event, state: UserState)
    ensures LastOverride(before + [Promoted(p)] + after, event, state) == LastOverride(before + after, event, state)
  {
    LastOverrideOfConcat(before, after, event, state);
    LastOverrideOfConcat(before + [Promoted(p)], after, event, state);
    LastOverrideOfConcat(before, [Promoted(p)], event, state);
    assert LastOverride([Promoted(p)], event, state).None?;
  }

  lemma PromotedBase(before: seq<Rule>, p: Proposal, after: seq<Rule>, event: Event, state: UserState)
    ensures FirstBase(before + [Promoted(p)] + after, event, state)
         == if FirstBase(before, event, state).None? && event.category == p.category && event.urgency == p.urgency
            then Some(Promoted(p)) else FirstBase(before + after, event, state)
  {
    FirstBaseOfConcat(before, after, event, state);
    FirstBaseOfConcat(before + [Promoted(p)], after, event, state);
    FirstBaseOfConcat(before, [Promoted(p)], event, state);
    assert IsBase(Promoted(p), event, state) <==> event.category == p.category && event.urgency == p.urgency;
    assert FirstBase([Promoted(p)], event, state)
        == if IsBase(Promoted(p), event, state) then Some(Promoted(p)) else None;
  }

  lemma {:induction false} PromotedCandidates(before: seq<Rule>, p: Proposal, after: seq<Rule>, event: Event, state: UserState,
                           installed: seq<Manifest>, pick: Option<seq<string>>)
    ensures Candidates(before + [Promoted(p)] + after, event, state, installed, pick)
         == if event.category == p.category && event.urgency == p.urgency
               && LastOverride(before + after, event, state).None? && FirstBase(before, event, state).None?
            then p.channels
            else Candidates(before + after, event, state, installed, pick)
  {
    PromotedOverride(before, p, after, event, state);
    PromotedBase(before, p, after, event, state);
  }

  /** What accepting one proposal does to the candidates of any event. They change
      only if the event has the proposal's category and urgency, no override
      applies, and no base rule up to position 100 matched it before; then they
      become the proposal's channels. */
  lemma {:induction false} AcceptanceCharacterised(rows: seq<Rule>, p: Proposal, event: Event, state: UserState, installed: seq<Manifest>,
                                pick: Option<seq<string>>)
    ensures var rules := InTableOrder(rows);
      var after := InTableOrder(rows + [Promoted(p)]);
      Candidates(after, event, state, installed, pick)
      == if event.category == p.category && event.urgency == p.urgency
            && LastOverride(rules, event, state).None? && FirstBase(UpTo(rules, PROMOTED), event, state).None?
         then p.channels
         else Candidates(rules, event, state, installed, pick)
  {
    var rules := InTableOrder(rows);
    assert (rows + [Promoted(p)])[..|rows|] == rows;
    InsertSplits(rules, Promoted(p));
    var before := UpTo(rules, PROMOTED);
    assert rules == before + rules[|before|..];
    PromotedCandidates(before, p, rules[|before|..], event, state, installed, pick);
    PromotedOverride(before, p, rules[|before|..], event, state);
  }

  /** An event that a base rule at position 100 or less already matches keeps its
      candidates and its dispatched channels, whatever is accepted. */
  lemma {:induction false} AcceptanceKeepsMatchedEvents(rows: seq<Rule>, ps: seq<Proposal>, event: Event, state: UserState,
                                                        installed: seq<Manifest>, limited: set<string>, pick: Option<seq<string>>)
    requires FirstBase(UpTo(InTableOrder(rows), PROMOTED), event, state).Some?
    ensures var d, d' := Decide(InTableOrder(rows), event, state, installed, limited, pick),
                         Decide(InTableOrder(Accepting(rows, ps)), event, state, installed, limited, pick);
      d'.candidates == d.candidates && d'.filtered == d.filtered && d'.dispatched == d.dispatched
    ensures FirstBase(UpTo(InTableOrder(Accepting(rows, ps)), PROMOTED), event, state).Some?
  {
    if ps != [] {
      var n := |ps| - 1;
      AcceptanceKeepsMatchedEvents(rows, ps[..n], event, state, installed, limited, pick);
      var grown := Accepting(rows, ps[..n]);
      AcceptanceCharacterised(grown, ps[n], event, state, installed, pick);
      AcceptanceKeepsEarlierBase(grown, ps[n], event, state);
    }
  }

  lemma {:induction false} AcceptanceKeepsEarlierBase(rows: seq<Rule>, p: Proposal, event: Event, state: UserState)
    requires FirstBase(UpTo(InTableOrder(rows), PROMOTED), event, state).Some?
    ensures FirstBase(UpTo(InTableOrder(rows + [Promoted(p)]), PROMOTED), event, state).Some?
  {
    var rules := InTableOrder(rows);
    assert (rows + [Promoted(p)])[..|rows|] == rows;
    InsertSplits(rules, Promoted(p));
    UpToIsPrefix(rules, PROMOTED);
    var before := UpTo(rules, PROMOTED);
    UpToStops(before + [Promoted(p)], rules[|before|..], PROMOTED);
    FirstBaseOfConcat(before, [Promoted(p)], event, state);
  }

  lemma {:induction false} UpToStops(xs: seq<Rule>, ys: seq<Rule>, position: int)
    requires xs != [] && xs[|xs| - 1].position <= position && forall r <- ys :: r.position > position
    ensures UpTo(xs + ys, position) == xs
  {
    if ys == [] {
      assert xs + ys == xs;
    } else {
      var n := |ys| - 1;
      assert (xs + ys)[..|xs| + n] == xs + ys[..n];
      assert ys[n] in ys;
      UpToStops(xs, ys[..n], position);
    }
  }

  /** The promoted rules, in the order of acceptance. */
  function PromotedRules(ps: seq<Proposal>): (rules: seq<Rule>)
    ensures |rules| == |ps| && forall i :: 0 <= i < |ps| ==> rules[i] == Promoted(ps[i])
  {
    if ps == [] then [] else PromotedRules(ps[..|ps| - 1]) + [Promoted(ps[|ps| - 1])]
  }

  /** A table grown from the defaults: the category defaults, then what was accepted,
      in order of acceptance, then the two overrides. */
  lemma {:induction false} GrownTable(ps: seq<Proposal>)
    ensures InTableOrder(Accepting(DefaultRules, ps)) == DefaultRules[..9] + PromotedRules(ps) + DefaultRules[9..]
  {
    if ps == [] {
      DefaultsAreInOrder();
      assert DefaultRules == DefaultRules[..9] + [] + DefaultRules[9..];
    } else {
      var before, p := ps[..|ps| - 1], ps[|ps| - 1];
      GrownTable(before);
      GrownByOne(before, p);
    }
  }

  lemma {:induction false} GrownByOne(ps: seq<Proposal>, p: Proposal)
    requires InTableOrder(Accepting(DefaultRules, ps)) == DefaultRules[..9] + PromotedRules(ps) + DefaultRules[9..]
    ensures InTableOrder(Accepting(DefaultRules, ps) + [Promoted(p)])
         == DefaultRules[..9] + (PromotedRules(ps) + [Promoted(p)]) + DefaultRules[9..]
  {
    var rows, front, back := Accepting(DefaultRules, ps), DefaultRules[..9] + PromotedRules(ps), DefaultRules[9..];
    assert (rows + [Promoted(p)])[..|rows|] == rows;
    assert front[|front| - 1].position <= PROMOTED by {
      if ps != [] { assert front[|front| - 1] == PromotedRules(ps)[|ps| - 1]; }
    }
    UpToStops(front, back, PROMOTED);
    InsertSplits(front + back, Promoted(p));
    assert (front + back)[|front|..] == back;
    assert front + [Promoted(p)] == DefaultRules[..9] + (PromotedRules(ps) + [Promoted(p)]);
  }

  /** Rows that are in order already stay as they are. */
  lemma {:induction false} SortedStays(rows: seq<Rule>)
    requires forall i :: 0 < i < |rows| ==> rows[i - 1].position <= rows[i].position
    ensures InTableOrder(rows) == rows
  {
    if rows != [] {
      var n := |rows| - 1;
      SortedStays(rows[..n]);
      assert rows == rows[..n] + [rows[n]];
    }
  }

  lemma DefaultsAreInOrder()
    ensures InTableOrder(DefaultRules) == DefaultRules
    ensures |DefaultRules| == 11 && forall i :: 0 <= i < 11 ==>
      DefaultRules[i].position == (if i < 9 then 10 * (i + 1) else 10 * (i + 11))
  {
    forall i | 0 < i < |DefaultRules| ensures DefaultRules[i - 1].position <= DefaultRules[i].position {
      assert i == 1 || i == 2 || i == 3 || i == 4 || i == 5 || i == 6 || i == 7 || i == 8 || i == 9 || i == 10;
    }
    SortedStays(DefaultRules);
  }

  // ---------------------------------------------------------------------------
  // Quiet modes
  // ---------------------------------------------------------------------------

  /** The only overrides of the table are the two defaults, and it has them. */
  predicate DefaultOverridesOnly(rows: seq<Rule>) {
    && DoNotDisturb in rows && Asleep in rows
    && forall r <- rows :: r.action.isOverride ==> r == DoNotDisturb || r == Asleep
  }

  /** Exactly the digest, or nothing if there is no digest channel. */
  function DigestOnly(installed: seq<Manifest>): seq<string> {
    if "digest" in Names(installed) then ["digest"] else []
  }

  lemma QuietTable(rules: seq<Rule>, event: Event, state: UserState, installed: seq<Manifest>, limited: set<string>,
                   pick: Option<seq<string>>)
    requires DefaultOverridesOnly(rules)
    requires !event.expired && event.urgency != "urgent" && ("do_not_disturb" in state || "asleep" in state)
    ensures Decide(rules, event, state, installed, limited, pick).dispatched == DigestOnly(installed)
  {
    assert Overrides(if "do_not_disturb" in state then DoNotDisturb else Asleep, event, state);
    var last := LastOverride(rules, event, state);
    assert last.Some? && Replacement(last.value, installed) == ["digest"];
    var digest := ["digest"];
    assert digest[..0] == [];
    DigestInstalled(installed);
  }

  lemma {:induction false} DigestInstalled(installed: seq<Manifest>)
    ensures Lookup(installed, "digest").Some? ==> "digest" in Names(installed)
  {
    if Lookup(installed, "digest").Some? {
      var m := Lookup(installed, "digest").value;
      var k :| 0 <= k < |installed| && installed[k] == m;
      assert Names(installed)[k] == "digest";
    }
  }

  lemma {:induction false} GrowthKeepsDefaultOverrides(rows: seq<Rule>, ps: seq<Proposal>)
    requires DefaultOverridesOnly(rows)
    ensures DefaultOverridesOnly(Accepting(rows, ps))
  {
    if ps != [] {
      GrowthKeepsDefaultOverrides(rows, ps[..|ps| - 1]);
    }
  }

  /** Quiet modes hold under growth. Take any table whose only overrides are the two
      defaults and accept any proposals in any order: an unexpired event that is not
      urgent, routed under do-not-disturb or asleep, reaches the digest and nothing
      else, whatever the LLM picks, whatever the channels refuse and whatever is
      rate-limited. */
  lemma {:induction false} QuietModesHoldUnderGrowth(rows: seq<Rule>, ps: seq<Proposal>, event: Event, state: UserState,
                                  installed: seq<Manifest>, limited: set<string>, pick: Option<seq<string>>)
    requires DefaultOverridesOnly(rows)
    requires !event.expired && event.urgency != "urgent" && ("do_not_disturb" in state || "asleep" in state)
    ensures Decide(InTableOrder(Accepting(rows, ps)), event, state, installed, limited, pick).dispatched
         == DigestOnly(installed)
  {
    GrowthKeepsDefaultOverrides(rows, ps);
    var grown := Accepting(rows, ps);
    TableOrderKeepsRows(grown);
    assert forall r :: r in InTableOrder(grown) <==> r in multiset(grown);
    assert DefaultOverridesOnly(InTableOrder(grown)) by {
      assert DoNotDisturb in multiset(grown) && Asleep in multiset(grown);
      forall r <- InTableOrder(grown) ensures r in grown { assert r in multiset(grown); }
    }
    QuietTable(InTableOrder(grown), event, state, installed, limited, pick);
  }
}
