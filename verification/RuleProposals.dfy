/** Where proposals come from and what accepting them achieves. Routing asks the LLM
    only about events that no base rule matches (outputs/router.py) and records its
    pick as a proposal; the user accepts or dismisses it (routes/outputs.py). Recording
    and accepting take several statements each, with an await before every one, so
    any number of routes and requests come in between. */
module RuleProposals {
  import opened Common
  import opened Routing
  import opened RoutingResults
  import opened RuleGrowth
  import Runs

  datatype Reply = Ok | NotFound | AlreadyAccepted

  predicate Open(p: Proposal) { !p.accepted && !p.dismissed }

  predicate SameKey(p: Proposal, q: Proposal) {
    p.category == q.category && p.urgency == q.urgency && p.channels == q.channels
  }

  datatype Phase =
    | Asked                                               // waits for the LLM
    | Sought(channels: seq<string>, found: Option<nat>)   // the SELECT has answered, nothing is written yet
    | Over

  /** A route that matched no base rule. */
  datatype Waiting = Waiting(category: string, urgency: string, phase: Phase)

  datatype Progress =
    | Checked                  // the proposal was read and not accepted
    | Inserted                 // its rule stands in the table
    | Marked                   // `accepted_at` is written
    | Failed(inserted: bool)   // the request raised

  /** A request to accept a proposal, as it read it. */
  datatype Request = Request(id: nat, seen: Proposal, progress: Progress)

  /** The tables `output_routing_rules` and `output_rule_proposals`, a row's id being
      its index; the routes and requests; and what was promoted, in order. */
  datatype State = State(rows: seq<Rule>, proposals: seq<Proposal>, routes: seq<Waiting>, requests: seq<Request>,
                         accepted: seq<Proposal>)

  datatype Action =
    | Load                                    // load_rules
    | Route(event: Event, state: UserState)   // route, up to the LLM call
    | Seek(k: nat, channels: seq<string>)     // the LLM picked: the SELECT of _record_rule_proposal
    | Write(k: nat)                           // its UPDATE or INSERT
    | GiveUp(k: nat)                          // it did not pick, or recording failed
    | Check(id: nat)                          // accept_rule_proposal: its SELECT and checks
    | Insert(k: nat)                          // its INSERT of the rule
    | Mark(k: nat)                            // its UPDATE of the proposal
    | Fail(k: nat)
    | Dismiss(id: nat)

  const Start: State := State([], [], [], [], [])

  /** The defaults are seeded into an empty table. */
  function Seeded(rows: seq<Rule>): seq<Rule> {
    if rows == [] then DefaultRules else rows
  }

  /** SELECT id ... WHERE the key is the same AND it is neither dismissed nor accepted. */
  function FindOpen(proposals: seq<Proposal>, p: Proposal): (found: Option<nat>)
    ensures found.Some? ==>
      found.value < |proposals| && Open(proposals[found.value]) && SameKey(proposals[found.value], p)
    ensures found.None? ==> forall i :: 0 <= i < |proposals| ==> !(Open(proposals[i]) && SameKey(proposals[i], p))
  {
    if proposals == [] then None
    else
      var n := |proposals| - 1;
      var before := FindOpen(proposals[..n], p);
      if before.Some? then before
      else if Open(proposals[n]) && SameKey(proposals[n], p) then Some(n)
      else None
  }

  /** What the write makes of the table after the SELECT answered `found`. */
  function Recorded(proposals: seq<Proposal>, p: Proposal, found: Option<nat>): seq<Proposal> {
    if found.None? then proposals + [p]
    else if found.value >= |proposals| then proposals
    else proposals[found.value := proposals[found.value].(hits := proposals[found.value].hits + 1)]
  }

  function Pick(w: Waiting, channels: seq<string>): Proposal {
    Proposal(w.category, w.urgency, channels, 1, false, false)
  }

  /** No base rule matches the event: the guard before the LLM is asked. */
  predicate Unmatched(rows: seq<Rule>, event: Event, state: UserState) {
    !event.expired && FirstBase(InTableOrder(Seeded(rows)), event, state).None?
  }

  function AcceptReply(proposals: seq<Proposal>, id: nat): Reply {
    if id >= |proposals| then NotFound else if proposals[id].accepted then AlreadyAccepted else Ok
  }

  predicate Enabled(s: State, a: Action) {
    match a
    case Load => true
    case Route(_, _) => true
    case Seek(k, _) => k < |s.routes| && s.routes[k].phase.Asked?
    case Write(k) => k < |s.routes| && s.routes[k].phase.Sought?
    case GiveUp(k) => k < |s.routes|
    case Check(id) => AcceptReply(s.proposals, id) == Ok
    case Insert(k) => k < |s.requests| && s.requests[k].progress.Checked? && s.requests[k].id < |s.proposals|
    case Mark(k) => k < |s.requests| && s.requests[k].progress.Inserted? && s.requests[k].id < |s.proposals|
    case Fail(k) => k < |s.requests| && (s.requests[k].progress.Checked? || s.requests[k].progress.Inserted?)
    case Dismiss(id) => id < |s.proposals|
  }

  function Step(s: State, a: Action): State {
    if !Enabled(s, a) then s
    else
      match a
      case Load => s.(rows := Seeded(s.rows))
      case Route(event, state) =>
        s.(rows := if event.expired then s.rows else Seeded(s.rows),
           routes := if Unmatched(s.rows, event, state) then s.routes + [Waiting(event.category, event.urgency, Asked)] else s.routes)
      case Seek(k, channels) =>
        var found := FindOpen(s.proposals, Pick(s.routes[k], channels));
        s.(routes := s.routes[k := s.routes[k].(phase := Sought(channels, found))])
      case Write(k) =>
        var w := s.routes[k];
        s.(proposals := Recorded(s.proposals, Pick(w, w.phase.channels), w.phase.found), routes := s.routes[k := w.(phase := Over)])
      case GiveUp(k) => s.(routes := s.routes[k := s.routes[k].(phase := Over)])
      case Check(id) => s.(requests := s.requests + [Request(id, s.proposals[id], Checked)])
      case Insert(k) =>
        var r := s.requests[k];
        s.(rows := s.rows + [Promoted(r.seen)], requests := s.requests[k := r.(progress := Inserted)], accepted := s.accepted + [r.seen])
      case Mark(k) =>
        var r := s.requests[k];
        s.(proposals := s.proposals[r.id := s.proposals[r.id].(accepted := true)], requests := s.requests[k := r.(progress := Marked)])
      case Fail(k) =>
        s.(requests := s.requests[k := s.requests[k].(progress := Failed(s.requests[k].progress.Inserted?))])
      case Dismiss(id) => s.(proposals := s.proposals[id := s.proposals[id].(dismissed := true)])
  }

  function Run(s: State, actions: seq<Action>): State {
    Runs.Run(Step, s, actions)
  }

  // ---------------------------------------------------------------------------
  // The invariant
  // ---------------------------------------------------------------------------

  /** Reads nothing of the event but its category and urgency, unless it is an override. */
  predicate ByPair(r: Rule) {
    !r.action.isOverride ==> r.on.urgencyBelow.None? && r.on.state.None? && r.on.sourceTool.None?
  }

  lemma {:induction false} FirstBaseByPair(rules: seq<Rule>, e: Event, st: UserState, e': Event, st': UserState)
    requires forall r <- rules :: ByPair(r)
    requires e.category == e'.category && e.urgency == e'.urgency
    ensures FirstBase(rules, e, st) == FirstBase(rules, e', st')
  {
    if rules != [] {
      assert ByPair(rules[0]);
      FirstBaseByPair(rules[1..], e, st, e', st');
    }
  }

  lemma DefaultsAreByPair()
    ensures forall r <- DefaultRules :: ByPair(r)
  {
  }

  function PairEvent(category: string, urgency: string): Event {
    Event(category, urgency, "", "", false, false)
  }

  /** No category default matches events of this pair. */
  predicate NoDefault(category: string, urgency: string) {
    FirstBase(DefaultRules, PairEvent(category, urgency), {}).None?
  }

  /** The table is the defaults and what was promoted; nothing else exists before it. */
  ghost predicate RowsInv(s: State) {
    if s.rows == [] then s.accepted == [] && s.proposals == [] && s.routes == [] && s.requests == []
    else s.rows == Accepting(DefaultRules, s.accepted)
  }

  ghost predicate RoutesAre(good: (string, string) -> bool, routes: seq<Waiting>) {
    forall i :: 0 <= i < |routes| ==> good(routes[i].category, routes[i].urgency)
  }

  ghost predicate ProposalsAre(good: (string, string) -> bool, proposals: seq<Proposal>) {
    forall i :: 0 <= i < |proposals| ==> good(proposals[i].category, proposals[i].urgency)
  }

  /** A request has seen its proposal, whose key never changes. */
  ghost predicate RequestsInv(s: State) {
    forall i :: 0 <= i < |s.requests| ==>
      && s.requests[i].id < |s.proposals|
      && SameKey(s.proposals[s.requests[i].id], s.requests[i].seen)
  }

  ghost predicate Inv(s: State) {
    && RowsInv(s) && RequestsInv(s)
    && RoutesAre(NoDefault, s.routes) && ProposalsAre(NoDefault, s.proposals) && ProposalsAre(NoDefault, s.accepted)
  }

  /** Where no base rule of a grown table matches, no default does. */
  lemma UnmatchedHasNoDefault(s: State, event: Event, state: UserState)
    requires RowsInv(s) && Unmatched(s.rows, event, state)
    ensures NoDefault(event.category, event.urgency)
  {
    GrownTable(s.accepted);
    assert Seeded(s.rows) == Accepting(DefaultRules, s.accepted);
    var front, back := DefaultRules[..9] + PromotedRules(s.accepted), DefaultRules[9..];
    FirstBaseOfConcat(front, back, event, state);
    FirstBaseOfConcat(DefaultRules[..9], PromotedRules(s.accepted), event, state);
    FirstBaseOfConcat(DefaultRules[..9], back, event, state);
    assert DefaultRules == DefaultRules[..9] + back;
    DefaultsAreByPair();
    FirstBaseByPair(DefaultRules, event, state, PairEvent(event.category, event.urgency), {});
  }

  lemma AcceptingOneMore(rules: seq<Rule>, ps: seq<Proposal>, p: Proposal)
    ensures Accepting(rules, ps + [p]) == Accepting(rules, ps) + [Promoted(p)]
  {
    assert (ps + [p])[..|ps|] == ps;
  }

  lemma StepKeepsRows(s: State, a: Action)
    requires RowsInv(s)
    ensures RowsInv(Step(s, a))
  {
    if a.Insert? && Enabled(s, a) {
      AcceptingOneMore(DefaultRules, s.accepted, s.requests[a.k].seen);
    } else if s.rows == [] {
      assert Accepting(DefaultRules, []) == DefaultRules;
    }
  }

  lemma StepKeepsRoutes(good: (string, string) -> bool, s: State, a: Action)
    requires RoutesAre(good, s.routes)
    requires a.Route? && Unmatched(s.rows, a.event, a.state) ==> good(a.event.category, a.event.urgency)
    ensures RoutesAre(good, Step(s, a).routes)
  {
  }

  lemma StepKeepsProposals(good: (string, string) -> bool, s: State, a: Action)
    requires RoutesAre(good, s.routes) && ProposalsAre(good, s.proposals)
    ensures ProposalsAre(good, Step(s, a).proposals)
  {
  }

  lemma StepKeepsAccepted(good: (string, string) -> bool, s: State, a: Action)
    requires RequestsInv(s) && ProposalsAre(good, s.proposals) && ProposalsAre(good, s.accepted)
    ensures ProposalsAre(good, Step(s, a).accepted)
  {
    if a.Insert? && Enabled(s, a) {
      assert SameKey(s.proposals[s.requests[a.k].id], s.requests[a.k].seen);
    }
  }

  lemma TableOrderMembers(rows: seq<Rule>, r: Rule)
    ensures r in InTableOrder(rows) <==> r in rows
  {
    TableOrderKeepsRows(rows);
    assert r in multiset(InTableOrder(rows)) <==> r in multiset(rows);
  }

  lemma NoBaseIff(rules: seq<Rule>, event: Event, state: UserState)
    ensures FirstBase(rules, event, state).None? <==> forall r <- rules :: r.action.isOverride || !Agrees(r.on, event, state)
  {
    forall r: Rule ensures IsBase(r, event, state) <==> !r.action.isOverride && Agrees(r.on, event, state) {
      MatchingIsAgreeing(r, event, state);
    }
  }

  lemma NoBaseInTableOrder(table: seq<Rule>, event: Event, state: UserState)
    ensures FirstBase(InTableOrder(table), event, state).None?
      <==> forall r <- table :: r.action.isOverride || !Agrees(r.on, event, state)
  {
    NoBaseIff(InTableOrder(table), event, state);
    forall r: Rule ensures r in InTableOrder(table) <==> r in table {
      TableOrderMembers(table, r);
    }
  }

  /** The LLM is asked exactly about an event that has not expired and for which no rule
      of the table, or of the defaults while the table is empty, decides. */
  lemma AskedIffNoRuleDecides(rows: seq<Rule>, event: Event, state: UserState)
    ensures Unmatched(rows, event, state)
      <==> !event.expired
           && forall r <- (if rows == [] then DefaultRules else rows) :: r.action.isOverride || !Agrees(r.on, event, state)
  {
    NoBaseInTableOrder(Seeded(rows), event, state);
  }

  lemma StepKeepsRequests(s: State, a: Action)
    requires RequestsInv(s)
    ensures RequestsInv(Step(s, a))
  {
  }

  lemma StepKeepsInv(s: State, a: Action)
    requires Inv(s)
    ensures Inv(Step(s, a))
  {
    if a.Route? && Unmatched(s.rows, a.event, a.state) {
      UnmatchedHasNoDefault(s, a.event, a.state);
    }
    StepKeepsRows(s, a);
    StepKeepsRoutes(NoDefault, s, a);
    StepKeepsProposals(NoDefault, s, a);
    StepKeepsAccepted(NoDefault, s, a);
    StepKeepsRequests(s, a);
  }

  lemma {:induction false} RunKeepsInv(s: State, actions: seq<Action>)
    requires Inv(s)
    ensures Inv(Run(s, actions))
  {
    if actions != [] {
      RunKeepsInv(s, actions[..|actions| - 1]);
      StepKeepsInv(Run(s, actions[..|actions| - 1]), actions[|actions| - 1]);
    }
  }

  // ---------------------------------------------------------------------------
  // One open proposal for each key
  // ---------------------------------------------------------------------------

  /** At most one open proposal for each (category, urgency, channels). */
  ghost predicate OneOpenEach(proposals: seq<Proposal>) {
    forall i, j :: 0 <= i < j < |proposals| && Open(proposals[i]) && Open(proposals[j]) ==>
      !SameKey(proposals[i], proposals[j])
  }

  /** There is an open proposal with this key, and no second one. */
  ghost predicate OneOpenFor(proposals: seq<Proposal>, p: Proposal) {
    exists i :: 0 <= i < |proposals| && Open(proposals[i]) && SameKey(proposals[i], p)
      && forall j :: 0 <= j < |proposals| && Open(proposals[j]) && SameKey(proposals[j], p) ==> j == i
  }

  /** The write touches at most the row that the SELECT found, and of that only the
      hits. It does what the two statements would do as one exactly when the SELECT
      would still give the same answer, and it leaves one open proposal with the
      key exactly when the SELECT would still find one or still find none. */
  lemma {:induction false} RecordedIsExact(proposals: seq<Proposal>, p: Proposal, found: Option<nat>)
    requires OneOpenEach(proposals) && Open(p)
    requires found.Some? ==> found.value < |proposals|
    ensures var out, now := Recorded(proposals, p, found), FindOpen(proposals, p);
      && (out == Recorded(proposals, p, now) <==> found == now)
      && (OneOpenFor(out, p) <==> (found.Some? <==> now.Some?))
    ensures var out := Recorded(proposals, p, found);
      && |out| == |proposals| + (if found.Some? then 0 else 1)
      && forall i :: 0 <= i < |proposals| ==>
           out[i] == proposals[i].(hits := proposals[i].hits + (if found == Some(i) then 1 else 0))
  {
    RecordedApart(proposals, p, found, FindOpen(proposals, p));
    if found.Some? {
      BumpLeavesOneIff(proposals, p, found.value);
    } else {
      InsertLeavesOneIff(proposals, p);
    }
  }

  lemma InsertLeavesOneIff(proposals: seq<Proposal>, p: Proposal)
    requires Open(p)
    ensures OneOpenFor(proposals + [p], p) <==> FindOpen(proposals, p).None?
  {
    var out, now, n := proposals + [p], FindOpen(proposals, p), |proposals|;
    assert Open(out[n]) && SameKey(out[n], p);
    if now.Some? {
      assert Open(out[now.value]) && SameKey(out[now.value], p);
    }
  }

  lemma BumpLeavesOneIff(proposals: seq<Proposal>, p: Proposal, k: nat)
    requires OneOpenEach(proposals) && k < |proposals|
    ensures OneOpenFor(Recorded(proposals, p, Some(k)), p) <==> FindOpen(proposals, p).Some?
  {
    var out, now := Recorded(proposals, p, Some(k)), FindOpen(proposals, p);
    assert |out| == |proposals|;
    assert forall i :: 0 <= i < |out| ==> (Open(out[i]) <==> Open(proposals[i])) && (SameKey(out[i], p) <==> SameKey(proposals[i], p));
    if now.Some? {
      var i := now.value;
      assert Open(out[i]) && SameKey(out[i], p);
      forall j | 0 <= j < |out| && Open(out[j]) && SameKey(out[j], p)
        ensures j == i
      {
        assert Open(proposals[j]) && SameKey(proposals[j], proposals[i]) && SameKey(proposals[i], proposals[j]);
      }
    }
  }

  lemma RecordedApart(proposals: seq<Proposal>, p: Proposal, found: Option<nat>, now: Option<nat>)
    requires found.Some? ==> found.value < |proposals|
    requires now.Some? ==> now.value < |proposals|
    ensures Recorded(proposals, p, found) == Recorded(proposals, p, now) <==> found == now
  {
    var out, other := Recorded(proposals, p, found), Recorded(proposals, p, now);
    if found.Some? && now.Some? && found != now {
      assert out[found.value].hits != other[found.value].hits;
    }
  }

  /** A route inserts although, since its SELECT, another has inserted the same key. */
  predicate StaleInsert(s: State, a: Action) {
    && a.Write? && Enabled(s, a) && s.routes[a.k].phase.found.None?
    && FindOpen(s.proposals, Pick(s.routes[a.k], s.routes[a.k].phase.channels)).Some?
  }

  predicate NoStaleInsert(actions: seq<Action>) {
    actions == [] || (NoStaleInsert(actions[..|actions| - 1])
                      && !StaleInsert(Run(Start, actions[..|actions| - 1]), actions[|actions| - 1]))
  }

  ghost predicate OneOpenThroughout(actions: seq<Action>) {
    OneOpenEach(Run(Start, actions).proposals) && (actions == [] || OneOpenThroughout(actions[..|actions| - 1]))
  }

  lemma AppendKeepsOneOpenIff(proposals: seq<Proposal>, p: Proposal)
    requires OneOpenEach(proposals) && Open(p)
    ensures OneOpenEach(proposals + [p]) <==> FindOpen(proposals, p).None?
  {
    var out, now := proposals + [p], FindOpen(proposals, p);
    if now.Some? {
      assert Open(out[now.value]) && Open(out[|proposals|]) && SameKey(out[now.value], out[|proposals|]);
    }
  }

  lemma StepKeepsOneOpenIff(s: State, a: Action)
    requires OneOpenEach(s.proposals)
    ensures OneOpenEach(Step(s, a).proposals) <==> !StaleInsert(s, a)
  {
    if a.Write? && Enabled(s, a) && s.routes[a.k].phase.found.None? {
      AppendKeepsOneOpenIff(s.proposals, Pick(s.routes[a.k], s.routes[a.k].phase.channels));
    }
  }

  /** The table never holds two open proposals with one key exactly when no route
      inserts one that came into being since its SELECT. */
  lemma {:induction false} OneOpenIffNoStaleInsert(actions: seq<Action>)
    ensures OneOpenThroughout(actions) <==> NoStaleInsert(actions)
  {
    if actions != [] {
      var n := |actions| - 1;
      OneOpenIffNoStaleInsert(actions[..n]);
      if OneOpenThroughout(actions[..n]) {
        StepKeepsOneOpenIff(Run(Start, actions[..n]), actions[n]);
      }
    }
  }

  // ---------------------------------------------------------------------------
  // Hits, and decisions that stand
  // ---------------------------------------------------------------------------

  function TotalHits(proposals: seq<Proposal>): nat {
    if proposals == [] then 0 else TotalHits(proposals[..|proposals| - 1]) + proposals[|proposals| - 1].hits
  }

  /** How many picks the run has written. */
  function Writes(actions: seq<Action>): nat {
    if actions == [] then 0
    else
      var before, last := actions[..|actions| - 1], actions[|actions| - 1];
      Writes(before) + (if last.Write? && Enabled(Run(Start, before), last) then 1 else 0)
  }

  lemma {:induction false} HitsOfUpdate(proposals: seq<Proposal>, i: nat, p: Proposal)
    requires i < |proposals|
    ensures TotalHits(proposals[i := p]) == TotalHits(proposals) - proposals[i].hits + p.hits
  {
    var n := |proposals| - 1;
    if i < n {
      assert proposals[i := p][..n] == proposals[..n][i := p];
      HitsOfUpdate(proposals[..n], i, p);
    } else {
      assert proposals[i := p][..n] == proposals[..n];
    }
  }

  /** What a SELECT found is in the table. */
  ghost predicate FoundInv(s: State) {
    forall i :: 0 <= i < |s.routes| && s.routes[i].phase.Sought? && s.routes[i].phase.found.Some? ==>
      s.routes[i].phase.found.value < |s.proposals|
  }

  lemma StepKeepsFound(s: State, a: Action)
    requires FoundInv(s)
    ensures FoundInv(Step(s, a))
  {
  }

  lemma HitsStep(s: State, a: Action)
    requires FoundInv(s)
    ensures TotalHits(Step(s, a).proposals) == TotalHits(s.proposals) + (if a.Write? && Enabled(s, a) then 1 else 0)
  {
    if Enabled(s, a) {
      if a.Write? {
        var w := s.routes[a.k];
        if w.phase.found.Some? {
          var i := w.phase.found.value;
          HitsOfUpdate(s.proposals, i, s.proposals[i].(hits := s.proposals[i].hits + 1));
        } else {
          assert Step(s, a).proposals[..|s.proposals|] == s.proposals;
        }
      } else if a.Mark? {
        var i := s.requests[a.k].id;
        HitsOfUpdate(s.proposals, i, s.proposals[i].(accepted := true));
      } else if a.Dismiss? {
        HitsOfUpdate(s.proposals, a.id, s.proposals[a.id].(dismissed := true));
      }
    }
  }

  /** No pick is lost and none is counted twice, however the routes interleave: the hit
      counts add up to the number of picks that were written. */
  lemma {:induction false} HitsAreConserved(actions: seq<Action>)
    ensures TotalHits(Run(Start, actions).proposals) == Writes(actions)
    ensures FoundInv(Run(Start, actions))
  {
    if actions != [] {
      var before, last := actions[..|actions| - 1], actions[|actions| - 1];
      HitsAreConserved(before);
      HitsStep(Run(Start, before), last);
      StepKeepsFound(Run(Start, before), last);
    }
  }

  lemma DecidedStep(s: State, a: Action, id: nat)
    requires id < |s.proposals|
    ensures var t := Step(s, a);
      && id < |t.proposals| && SameKey(t.proposals[id], s.proposals[id])
      && (s.proposals[id].accepted ==> t.proposals[id].accepted)
      && (s.proposals[id].dismissed ==> t.proposals[id].dismissed)
      && (a == Dismiss(id) ==> t.proposals[id].dismissed)
  {
  }

  /** A decision stands. Once a proposal is accepted or dismissed, in every continuation no
      SELECT finds it, so the next pick of its key makes a new one; its key never
      changes; and what was accepted cannot be accepted again. */
  lemma {:induction false} DecidedForEver(s: State, id: nat, more: seq<Action>, p: Proposal)
    requires id < |s.proposals|
    ensures var t := Run(s, more);
      && id < |t.proposals| && SameKey(t.proposals[id], s.proposals[id])
      && (s.proposals[id].accepted || s.proposals[id].dismissed ==> FindOpen(t.proposals, p) != Some(id))
      && (s.proposals[id].accepted ==> t.proposals[id].accepted && !Enabled(t, Check(id)))
      && (s.proposals[id].dismissed ==> t.proposals[id].dismissed)
  {
    if more != [] {
      var before, last := more[..|more| - 1], more[|more| - 1];
      DecidedForEver(s, id, before, p);
      DecidedStep(Run(s, before), last, id);
    }
  }

  /** What has come to its end writes nothing more: a route that gave up or has written,
      and a request that raised or has marked. A request that raised between its two
      writes leaves the rule behind. */
  lemma {:induction false} EndedForEver(s: State, more: seq<Action>, k: nat)
    ensures k < |s.routes| && s.routes[k].phase.Over? ==>
      k < |Run(s, more).routes| && Run(s, more).routes[k] == s.routes[k] && !Enabled(Run(s, more), Write(k))
    ensures k < |s.requests| && (s.requests[k].progress.Failed? || s.requests[k].progress.Marked?) ==>
      && k < |Run(s, more).requests| && Run(s, more).requests[k] == s.requests[k]
      && !Enabled(Run(s, more), Insert(k)) && !Enabled(Run(s, more), Mark(k))
    ensures Enabled(s, GiveUp(k)) || Enabled(s, Write(k)) ==>
      Step(s, GiveUp(k)).routes[k].phase.Over? && (Enabled(s, Write(k)) ==> Step(s, Write(k)).routes[k].phase.Over?)
    ensures k < |s.requests| && s.requests[k].progress in {Checked, Inserted} ==>
      && Step(s, Fail(k)).rows == s.rows && Step(s, Fail(k)).proposals == s.proposals
      && Step(s, Fail(k)).requests[k].progress == (if s.requests[k].progress.Inserted? then Failed(true) else Failed(false))
  {
    if more != [] {
      EndedForEver(s, more[..|more| - 1], k);
    }
  }

  // ---------------------------------------------------------------------------
  // One promotion for each proposal
  // ---------------------------------------------------------------------------

  predicate HasInserted(r: Request) {
    r.progress.Inserted? || r.progress.Marked? || r.progress == Failed(true)
  }

  /** The rule stands in the table, and the proposal is not marked. */
  predicate BetweenWrites(r: Request) {
    HasInserted(r) && !r.progress.Marked?
  }

  /** No proposal was promoted by two requests. */
  ghost predicate OnePromotionEach(requests: seq<Request>) {
    forall i, j :: 0 <= i < j < |requests| && HasInserted(requests[i]) && HasInserted(requests[j]) ==>
      requests[i].id != requests[j].id
  }

  ghost predicate PromotedBy(requests: seq<Request>, id: nat) {
    exists j :: 0 <= j < |requests| && HasInserted(requests[j]) && requests[j].id == id
  }

  /** An INSERT comes too late: its proposal has been marked since the check, or
      another request for it stands, or failed, between INSERT and UPDATE. */
  ghost predicate LateInsert(s: State, a: Action) {
    && a.Insert? && Enabled(s, a)
    && (s.proposals[s.requests[a.k].id].accepted
        || exists j :: 0 <= j < |s.requests| && BetweenWrites(s.requests[j]) && s.requests[j].id == s.requests[a.k].id)
  }

  ghost predicate NoLateInsert(actions: seq<Action>) {
    actions == [] || (NoLateInsert(actions[..|actions| - 1])
                      && !LateInsert(Run(Start, actions[..|actions| - 1]), actions[|actions| - 1]))
  }

  ghost predicate MarkedAreAccepted(s: State) {
    forall i :: 0 <= i < |s.requests| && s.requests[i].progress.Marked? ==>
      s.requests[i].id < |s.proposals| && s.proposals[s.requests[i].id].accepted
  }

  ghost predicate AcceptedArePromoted(s: State) {
    forall id :: 0 <= id < |s.proposals| && s.proposals[id].accepted ==> PromotedBy(s.requests, id)
  }

  /** A proposal is accepted exactly by the requests for it that went through. */
  ghost predicate MarkInv(s: State) {
    MarkedAreAccepted(s) && AcceptedArePromoted(s)
  }

  lemma StepKeepsPromotedBy(s: State, a: Action, id: nat)
    requires PromotedBy(s.requests, id)
    ensures PromotedBy(Step(s, a).requests, id)
  {
    var j :| 0 <= j < |s.requests| && HasInserted(s.requests[j]) && s.requests[j].id == id;
    assert HasInserted(Step(s, a).requests[j]) && Step(s, a).requests[j].id == id;
  }

  lemma StepKeepsMarked(s: State, a: Action)
    requires MarkedAreAccepted(s)
    ensures MarkedAreAccepted(Step(s, a))
  {
  }

  lemma StepKeepsPromoted(s: State, a: Action, id: nat)
    requires AcceptedArePromoted(s) && id < |Step(s, a).proposals| && Step(s, a).proposals[id].accepted
    ensures PromotedBy(Step(s, a).requests, id)
  {
    var t := Step(s, a);
    if id < |s.proposals| && s.proposals[id].accepted {
      StepKeepsPromotedBy(s, a, id);
    } else {
      assert a.Mark? && HasInserted(t.requests[a.k]) && t.requests[a.k].id == id;
    }
  }

  lemma StepKeepsMarkInv(s: State, a: Action)
    requires MarkInv(s)
    ensures MarkInv(Step(s, a))
  {
    StepKeepsMarked(s, a);
    forall id | 0 <= id < |Step(s, a).proposals| && Step(s, a).proposals[id].accepted
      ensures PromotedBy(Step(s, a).requests, id)
    {
      StepKeepsPromoted(s, a, id);
    }
  }

  lemma {:induction false} RunKeepsMarkInv(s: State, actions: seq<Action>)
    requires MarkInv(s)
    ensures MarkInv(Run(s, actions))
  {
    if actions != [] {
      RunKeepsMarkInv(s, actions[..|actions| - 1]);
      StepKeepsMarkInv(Run(s, actions[..|actions| - 1]), actions[|actions| - 1]);
    }
  }

  lemma LateIffPromoted(s: State, k: nat)
    requires MarkInv(s) && Enabled(s, Insert(k))
    ensures LateInsert(s, Insert(k)) <==> PromotedBy(s.requests, s.requests[k].id)
  {
    var id := s.requests[k].id;
    if PromotedBy(s.requests, id) {
      var j :| 0 <= j < |s.requests| && HasInserted(s.requests[j]) && s.requests[j].id == id;
      assert BetweenWrites(s.requests[j]) || s.requests[j].progress.Marked?;
    }
  }

  lemma StepKeepsOnePromotionIff(s: State, a: Action)
    requires MarkInv(s) && OnePromotionEach(s.requests)
    ensures OnePromotionEach(Step(s, a).requests) <==> !LateInsert(s, a)
  {
    if a.Insert? && Enabled(s, a) {
      LateIffPromoted(s, a.k);
      var t := Step(s, a);
      assert HasInserted(t.requests[a.k]);
      if PromotedBy(s.requests, s.requests[a.k].id) {
        var j :| 0 <= j < |s.requests| && HasInserted(s.requests[j]) && s.requests[j].id == s.requests[a.k].id;
        assert HasInserted(t.requests[j]) && j != a.k;
      }
    }
  }

  lemma TwicePromotedStays(s: State, a: Action)
    requires !OnePromotionEach(s.requests)
    ensures !OnePromotionEach(Step(s, a).requests)
  {
    var i, j :| 0 <= i < j < |s.requests| && HasInserted(s.requests[i]) && HasInserted(s.requests[j]) && s.requests[i].id == s.requests[j].id;
    var t := Step(s, a);
    assert HasInserted(t.requests[i]) && HasInserted(t.requests[j]) && t.requests[i].id == t.requests[j].id;
  }

  /** Every proposal was promoted at most once exactly when no INSERT of the run came
      too late. */
  lemma {:induction false} OnePromotionIffNoLateInsert(actions: seq<Action>)
    ensures OnePromotionEach(Run(Start, actions).requests) <==> NoLateInsert(actions)
  {
    if actions != [] {
      var n := |actions| - 1;
      var s := Run(Start, actions[..n]);
      OnePromotionIffNoLateInsert(actions[..n]);
      RunKeepsMarkInv(Start, actions[..n]);
      if OnePromotionEach(s.requests) {
        StepKeepsOnePromotionIff(s, actions[n]);
      } else {
        TwicePromotedStays(s, actions[n]);
      }
    }
  }

  /** Two requests for any proposal that both check before either marks it put its
      rule into the table twice. */
  lemma TwoRequestsPromoteTwice(s: State, id: nat)
    requires AcceptReply(s.proposals, id) == Ok
    ensures var k, p := |s.requests|, s.proposals[id];
      var t := Run(s, [Check(id), Check(id), Insert(k), Insert(k + 1)]);
      && t.rows == s.rows + [Promoted(p), Promoted(p)] && !OnePromotionEach(t.requests)
      && t.requests == s.requests + [Request(id, p, Inserted), Request(id, p, Inserted)]
  {
    var k, p := |s.requests|, s.proposals[id];
    Runs.RunFour(Step, s, Check(id), Check(id), Insert(k), Insert(k + 1));
    var t := Step(Step(s, Check(id)), Check(id));
    assert t.requests == s.requests + [Request(id, p, Checked), Request(id, p, Checked)];
    var u := Step(t, Insert(k));
    assert u.requests == s.requests + [Request(id, p, Inserted), Request(id, p, Checked)];
    var v := Step(u, Insert(k + 1));
    assert v.requests[k] == Request(id, p, Inserted) && v.requests[k + 1] == Request(id, p, Inserted);
  }

  // ---------------------------------------------------------------------------
  // What acceptance achieves
  // ---------------------------------------------------------------------------

  /** The first accepted proposal for the pair. */
  function FirstFor(ps: seq<Proposal>, category: string, urgency: string): Option<Proposal> {
    if ps == [] then None
    else
      var before, p := FirstFor(ps[..|ps| - 1], category, urgency), ps[|ps| - 1];
      if before.Some? then before
      else if p.category == category && p.urgency == urgency then Some(p)
      else None
  }

  lemma {:induction false} FirstPromoted(ps: seq<Proposal>, event: Event, state: UserState)
    ensures var first := FirstFor(ps, event.category, event.urgency);
      FirstBase(PromotedRules(ps), event, state) == if first.Some? then Some(Promoted(first.value)) else None
  {
    if ps != [] {
      var before, p := ps[..|ps| - 1], ps[|ps| - 1];
      FirstPromoted(before, event, state);
      FirstBaseOfConcat(PromotedRules(before), [Promoted(p)], event, state);
      assert IsBase(Promoted(p), event, state) <==> p.category == event.category && p.urgency == event.urgency;
      assert FirstBase([Promoted(p)], event, state) == if IsBase(Promoted(p), event, state) then Some(Promoted(p)) else None;
    }
  }

  /** An event that no default matches is decided, among base rules, by the first
      acceptance of its category and urgency. */
  lemma FirstAcceptanceDecides(s: State, event: Event, state: UserState)
    requires Inv(s) && s.rows != [] && NoDefault(event.category, event.urgency)
    ensures var first := FirstFor(s.accepted, event.category, event.urgency);
      FirstBase(InTableOrder(s.rows), event, state) == if first.Some? then Some(Promoted(first.value)) else None
  {
    GrownTable(s.accepted);
    var promoted, back := PromotedRules(s.accepted), DefaultRules[9..];
    DefaultsAreByPair();
    FirstBaseByPair(DefaultRules, event, state, PairEvent(event.category, event.urgency), {});
    assert DefaultRules == DefaultRules[..9] + back;
    FirstBaseOfConcat(DefaultRules[..9], back, event, state);
    FirstBaseOfConcat(DefaultRules[..9] + promoted, back, event, state);
    FirstBaseOfConcat(DefaultRules[..9], promoted, event, state);
    FirstPromoted(s.accepted, event, state);
  }

  /** A proposal never competes with a category default: in every reachable state no
      default matches any event of its category and urgency. */
  lemma {:induction false} ProposalsMeetNoDefault(actions: seq<Action>, id: nat, event: Event, state: UserState)
    requires id < |Run(Start, actions).proposals|
    requires var p := Run(Start, actions).proposals[id]; event.category == p.category && event.urgency == p.urgency
    ensures FirstBase(DefaultRules, event, state).None?
  {
    RunKeepsInv(Start, actions);
    DefaultsAreByPair();
    FirstBaseByPair(DefaultRules, event, state, PairEvent(event.category, event.urgency), {});
  }

  /** Accepting takes effect, as the comment beside the INSERT promises, and for good:
      for every event of the proposal's category and urgency to which no override
      applies, its rule decides from the INSERT on and its channels become the
      candidates, whatever the LLM would pick. The one exception is an earlier
      promotion of the same pair: the rule loses exactly to that. */
  lemma {:induction false} AcceptanceTakesEffectIff(actions: seq<Action>, k: nat, more: seq<Action>, event: Event, state: UserState,
                                 installed: seq<Manifest>, pick: Option<seq<string>>)
    requires Enabled(Run(Start, actions), Insert(k))
    requires var p := Run(Start, actions).requests[k].seen; event.category == p.category && event.urgency == p.urgency
    requires LastOverride(InTableOrder(Run(Step(Run(Start, actions), Insert(k)), more).rows), event, state).None?
    ensures var s := Run(Start, actions);
      var p, t := s.requests[k].seen, Run(Step(s, Insert(k)), more);
      var earlier := FirstFor(s.accepted, p.category, p.urgency);
      && SameKey(s.proposals[s.requests[k].id], p)
      && FirstBase(InTableOrder(t.rows), event, state) == Some(Promoted(if earlier.Some? then earlier.value else p))
      && (Candidates(InTableOrder(t.rows), event, state, installed, pick) == p.channels
          <==> earlier.None? || earlier.value.channels == p.channels)
  {
    RunKeepsInv(Start, actions);
    InsertedDecides(Run(Start, actions), k, more, event, state);
    var t := Run(Step(Run(Start, actions), Insert(k)), more);
    CandidatesOfBase(InTableOrder(t.rows), event, state, installed, pick);
  }

  lemma InsertedDecides(s: State, k: nat, more: seq<Action>, event: Event, state: UserState)
    requires Inv(s) && Enabled(s, Insert(k))
    requires event.category == s.requests[k].seen.category && event.urgency == s.requests[k].seen.urgency
    ensures var p := s.requests[k].seen;
      var earlier := FirstFor(s.accepted, p.category, p.urgency);
      FirstBase(InTableOrder(Run(Step(s, Insert(k)), more).rows), event, state)
      == Some(Promoted(if earlier.Some? then earlier.value else p))
  {
    var t := Step(s, Insert(k));
    StepKeepsInv(s, Insert(k));
    assert t.accepted[..|s.accepted|] == s.accepted;
    FirstForStays(t, more, event.category, event.urgency);
    RunKeepsInv(t, more);
    assert t.rows != [] && NoDefault(event.category, event.urgency);
    FirstAcceptanceDecides(Run(t, more), event, state);
  }

  /** The first promotion of a pair stays the first. */
  lemma {:induction false} FirstForStays(s: State, actions: seq<Action>, category: string, urgency: string)
    requires FirstFor(s.accepted, category, urgency).Some? && s.rows != []
    ensures FirstFor(Run(s, actions).accepted, category, urgency) == FirstFor(s.accepted, category, urgency)
    ensures Run(s, actions).rows != []
  {
    if actions != [] {
      var n := |actions| - 1;
      FirstForStays(s, actions[..n], category, urgency);
      var before, after := Run(s, actions[..n]), Run(s, actions);
      assert after.accepted == before.accepted || after.accepted[..|before.accepted|] == before.accepted;
    }
  }

  lemma CandidatesOfBase(rules: seq<Rule>, event: Event, state: UserState, installed: seq<Manifest>, pick: Option<seq<string>>)
    requires LastOverride(rules, event, state).None? && FirstBase(rules, event, state).Some?
    ensures Candidates(rules, event, state, installed, pick)
         == Resolve(FirstBase(rules, event, state).value.action.channels, installed)
  {
  }

  function Note(channels: seq<string>): Proposal {
    Proposal("note", "soft", channels, 1, false, false)
  }

  /** Two events of one pair are routed before either pick is recorded, and both
      SELECTs find nothing: both picks are inserted, even the same one. */
  lemma BothPicksAreInserted(first: seq<string>, second: seq<string>)
    ensures var note, routed := PairEvent("note", "soft"), Waiting("note", "soft", Over);
      Run(Run(Start, [Route(note, {}), Route(note, {}), Seek(0, first), Seek(1, second)]), [Write(0), Write(1)])
      == State(DefaultRules, [Note(first), Note(second)], [routed, routed], [], [])
    ensures !OneOpenEach([Note(first), Note(first)])
  {
    var note := PairEvent("note", "soft");
    Runs.RunFour(Step, Start, Route(note, {}), Route(note, {}), Seek(0, first), Seek(1, second));
    RouteNotes();
    var s := Run(Start, [Route(note, {}), Route(note, {}), Seek(0, first), Seek(1, second)]);
    assert s.routes == [Waiting("note", "soft", Sought(first, None)), Waiting("note", "soft", Sought(second, None))];
    assert [Write(0), Write(1)][..1] == [Write(0)] && [Write(0)][..0] == [];
    assert Run(s, [Write(0)]) == Step(s, Write(0));
    assert Run(s, [Write(0), Write(1)]) == Step(Step(s, Write(0)), Write(1));
    assert [Note(first), Note(first)][0] == [Note(first), Note(first)][1];
  }

  /** The exception of `AcceptanceTakesEffectIff` happens: picks of one pair that differ
      are both recorded, and both accepted in turn. */
  lemma SecondAcceptanceLoses(first: seq<string>, second: seq<string>)
    requires first != second
    ensures var note, routed := PairEvent("note", "soft"), Waiting("note", "soft", Over);
      var s := State(DefaultRules, [Note(first), Note(second)], [routed, routed], [], []);
      var t := Run(Run(s, [Check(0), Insert(0), Mark(0), Check(1)]), [Insert(1)]);
      && Runs.Reaches(Step, Start, s)
      && |t.requests| == 2 && t.requests[1] == Request(1, Note(second), Inserted)
      && FirstBase(InTableOrder(t.rows), note, {}) == Some(Promoted(Note(first)))
  {
    NotesAreReached(first, second);
    var routed := Waiting("note", "soft", Over);
    BothAccepted(State(DefaultRules, [Note(first), Note(second)], [routed, routed], [], []), first, second);
  }

  lemma NotesAreReached(first: seq<string>, second: seq<string>)
    ensures var routed := Waiting("note", "soft", Over);
      var s := State(DefaultRules, [Note(first), Note(second)], [routed, routed], [], []);
      Runs.Reaches(Step, Start, s) && Inv(s)
  {
    var note := PairEvent("note", "soft");
    var actions := [Route(note, {}), Route(note, {}), Seek(0, first), Seek(1, second)];
    Runs.ReachesSelf(Step, Start);
    Runs.ReachesRun(Step, Start, Start, actions);
    Runs.ReachesRun(Step, Start, Run(Start, actions), [Write(0), Write(1)]);
    RunKeepsInv(Start, actions);
    RunKeepsInv(Run(Start, actions), [Write(0), Write(1)]);
    BothPicksAreInserted(first, second);
  }

  lemma BothAccepted(s: State, first: seq<string>, second: seq<string>)
    requires Inv(s) && s.rows != [] && s.proposals == [Note(first), Note(second)] && s.requests == [] && s.accepted == []
    ensures var t := Run(Run(s, [Check(0), Insert(0), Mark(0), Check(1)]), [Insert(1)]);
      && |t.requests| == 2 && t.requests[1] == Request(1, Note(second), Inserted)
      && FirstBase(InTableOrder(t.rows), PairEvent("note", "soft"), {}) == Some(Promoted(Note(first)))
  {
    FirstIsAccepted(s, first, second);
    var t := Run(s, [Check(0), Insert(0), Mark(0), Check(1)]);
    assert t.accepted[..0] == [] && FirstFor(t.accepted, "note", "soft") == Some(Note(first));
    RunKeepsInv(s, [Check(0), Insert(0), Mark(0), Check(1)]);
    InsertedDecides(t, 1, [], PairEvent("note", "soft"), {});
    assert [Insert(1)][..0] == [] && Run(t, [Insert(1)]) == Step(t, Insert(1));
    assert Run(Step(t, Insert(1)), []) == Step(t, Insert(1));
  }

  lemma FirstIsAccepted(s: State, first: seq<string>, second: seq<string>)
    requires s.proposals == [Note(first), Note(second)] && s.requests == [] && s.accepted == []
    ensures var t := Run(s, [Check(0), Insert(0), Mark(0), Check(1)]);
      && t.requests == [Request(0, Note(first), Marked), Request(1, Note(second), Checked)]
      && t.accepted == [Note(first)] && |t.proposals| == 2
  {
    Runs.RunFour(Step, s, Check(0), Insert(0), Mark(0), Check(1));
    FirstIsInserted(s, first, second);
    var inserted := Step(Step(s, Check(0)), Insert(0));
    var marked := Step(inserted, Mark(0));
    assert marked.requests == [Request(0, Note(first), Marked)] && marked.proposals[1] == Note(second);
  }

  lemma FirstIsInserted(s: State, first: seq<string>, second: seq<string>)
    requires s.proposals == [Note(first), Note(second)] && s.requests == [] && s.accepted == []
    ensures var t := Step(Step(s, Check(0)), Insert(0));
      t.requests == [Request(0, Note(first), Inserted)] && t.accepted == [Note(first)] && t.proposals == s.proposals
  {
    assert Step(s, Check(0)).requests == [Request(0, Note(first), Checked)];
  }

  lemma NoteHasNoDefault()
    ensures NoDefault("note", "soft")
    ensures FirstBase(InTableOrder(DefaultRules), PairEvent("note", "soft"), {}).None?
  {
    assert forall r <- DefaultRules :: !IsBase(r, PairEvent("note", "soft"), {});
    DefaultsAreInOrder();
  }

  lemma RouteNotes()
    ensures var note := PairEvent("note", "soft");
      Step(Step(Start, Route(note, {})), Route(note, {}))
      == State(DefaultRules, [], [Waiting("note", "soft", Asked), Waiting("note", "soft", Asked)], [], [])
  {
    NoteHasNoDefault();
  }

  // ---------------------------------------------------------------------------
  // The tables
  // ---------------------------------------------------------------------------

  /** What is promoted is only a record: no step depends on it. */
  lemma {:induction false} RecordIsNotRead(s: State, accepted: seq<Proposal>, actions: seq<Action>)
    ensures Run(s.(accepted := accepted), actions) == Run(s, actions).(accepted := Run(s.(accepted := accepted), actions).accepted)
  {
    if actions != [] {
      RecordIsNotRead(s, accepted, actions[..|actions| - 1]);
    }
  }

  /** Steps that are not route `k`'s. */
  predicate NotOfRoute(actions: seq<Action>, k: nat) {
    forall a <- actions :: a.Seek? || a.Write? || a.GiveUp? ==> a.k != k
  }

  /** Steps that are not request `k`'s. */
  predicate NotOfRequest(actions: seq<Action>, k: nat) {
    forall a <- actions :: a.Insert? || a.Mark? || a.Fail? ==> a.k != k
  }

  lemma {:induction false} OthersLeaveRoute(s: State, actions: seq<Action>, k: nat)
    requires NotOfRoute(actions, k) && k < |s.routes|
    ensures k < |Run(s, actions).routes| && Run(s, actions).routes[k] == s.routes[k]
  {
    if actions != [] {
      var n := |actions| - 1;
      assert NotOfRoute(actions[..n], k);
      OthersLeaveRoute(s, actions[..n], k);
      assert actions[n] in actions;
    }
  }

  lemma {:induction false} OthersLeaveRequest(s: State, actions: seq<Action>, k: nat)
    requires NotOfRequest(actions, k) && k < |s.requests|
    ensures k < |Run(s, actions).requests| && Run(s, actions).requests[k] == s.requests[k]
    ensures |s.proposals| <= |Run(s, actions).proposals|
  {
    if actions != [] {
      var n := |actions| - 1;
      assert NotOfRequest(actions[..n], k);
      OthersLeaveRequest(s, actions[..n], k);
      assert actions[n] in actions;
    }
  }

  class RuleTables {
    var rows: seq<Rule>
    var proposals: seq<Proposal>
    var routes: seq<Waiting>
    var requests: seq<Request>
    ghost var accepted: seq<Proposal>

    ghost function View(): State
      reads this
    {
      State(rows, proposals, routes, requests, accepted)
    }

    constructor ()
      ensures View() == Start
    {
      rows, proposals, routes, requests, accepted := [], [], [], [], [];
    }

    /** An await: other coroutines take these steps. */
    method Await(others: seq<Action>)
      modifies this
      ensures View() == Run(old(View()), others)
    {
      RecordIsNotRead(View(), [], others);
      var after := Run(State(rows, proposals, routes, requests, []), others);
      accepted := Run(View(), others).accepted;
      rows, proposals, routes, requests := after.rows, after.proposals, after.routes, after.requests;
    }

    /** `load_rules`, seeding the defaults into an empty table. */
    method LoadRules() returns (rules: seq<Rule>)
      modifies this`rows
      ensures View() == Step(old(View()), Load)
      ensures rows == if old(rows) == [] then DefaultRules else old(rows)
      ensures rules == InTableOrder(rows)
    {
      if rows == [] {
        rows := DefaultRules;
      }
      rules := InTableOrder(rows);
    }

    /** `route` up to the question to the LLM; tells whether it is asked. */
    method BeginRoute(event: Event, state: UserState) returns (asked: bool)
      modifies this`rows, this`routes
      ensures View() == Step(old(View()), Route(event, state))
      ensures asked == Unmatched(old(rows), event, state)
      ensures routes == if asked then old(routes) + [Waiting(event.category, event.urgency, Asked)] else old(routes)
    {
      if event.expired {
        return false;
      }
      var rules := LoadRules();
      for n := 0 to |rules|
        invariant FirstBase(rules[..n], event, state).None?
        invariant View() == old(View()).(rows := Seeded(old(rows)))
      {
        assert rules == rules[..n + 1] + rules[n + 1..] && rules[..n + 1] == rules[..n] + [rules[n]];
        FirstBaseOfConcat(rules[..n], [rules[n]], event, state);
        FirstBaseOfConcat(rules[..n + 1], rules[n + 1..], event, state);
        if !rules[n].action.isOverride && RuleMatches(rules[n], event, state) {
          assert IsBase(rules[n], event, state) && rules[n] in rules;
          assert FirstBase(rules, event, state).Some?;
          return false;
        }
      }
      assert rules[..|rules|] == rules;
      routes := routes + [Waiting(event.category, event.urgency, Asked)];
      asked := true;
    }

    /** The SELECT of `_record_rule_proposal`. */
    method SeekProposal(k: nat, channels: seq<string>)
      requires k < |routes| && routes[k].phase.Asked?
      modifies this`routes
      ensures View() == Step(old(View()), Seek(k, channels))
    {
      var pick := Pick(routes[k], channels);
      for j := 0 to |proposals|
        invariant routes == old(routes)
        invariant FindOpen(proposals[..j], pick).None?
      {
        assert proposals[..j + 1][..j] == proposals[..j];
        if Open(proposals[j]) && SameKey(proposals[j], pick) {
          FoundStays(proposals, j + 1, pick);
          routes := routes[k := routes[k].(phase := Sought(channels, Some(j)))];
          return;
        }
      }
      assert proposals[..|proposals|] == proposals;
      routes := routes[k := routes[k].(phase := Sought(channels, None))];
    }

    /** Its UPDATE of the row found, or its INSERT. */
    method WriteProposal(k: nat)
      requires k < |routes| && routes[k].phase.Sought?
      modifies this`proposals, this`routes
      ensures View() == Step(old(View()), Write(k))
    {
      var w := routes[k];
      routes := routes[k := w.(phase := Over)];
      if w.phase.found.None? {
        proposals := proposals + [Proposal(w.category, w.urgency, w.phase.channels, 1, false, false)];
        return;
      }
      var j := w.phase.found.value;
      if j < |proposals| {
        proposals := proposals[j := proposals[j].(hits := proposals[j].hits + 1)];
      }
    }

    /** `_record_rule_proposal`, with what others do between its two statements. */
    method RecordProposal(k: nat, channels: seq<string>, others: seq<Action>)
      requires k < |routes| && routes[k].phase.Asked?
      requires NotOfRoute(others, k)
      modifies this
      ensures View() == Step(Run(Step(old(View()), Seek(k, channels)), others), Write(k))
      ensures k < |routes| && routes[k].phase.Over?
    {
      SeekProposal(k, channels);
      OthersLeaveRoute(View(), others, k);
      Await(others);
      WriteProposal(k);
    }

    /** The INSERT of a request's rule. */
    method InsertRule(k: nat)
      requires k < |requests| && requests[k].progress.Checked? && requests[k].id < |proposals|
      modifies this`rows, this`requests, this`accepted
      ensures View() == Step(old(View()), Insert(k))
      ensures var p := old(requests)[k].seen;
        rows == old(rows) + [Rule(100, RuleMatch(Some(p.category), Some(p.urgency), None, None, None),
                                  RuleAction(Listed(p.channels), [], false, false))]
    {
      var p := requests[k].seen;
      rows := rows + [Rule(PROMOTED, RuleMatch(Some(p.category), Some(p.urgency), None, None, None),
                           RuleAction(Listed(p.channels), [], false, false))];
      requests := requests[k := requests[k].(progress := Inserted)];
      accepted := accepted + [p];
    }

    /** The UPDATE that marks a request's proposal. */
    method MarkAccepted(k: nat)
      requires k < |requests| && requests[k].progress.Inserted? && requests[k].id < |proposals|
      modifies this`proposals, this`requests
      ensures View() == Step(old(View()), Mark(k))
    {
      var id := requests[k].id;
      proposals := proposals[id := proposals[id].(accepted := true)];
      requests := requests[k := requests[k].(progress := Marked)];
    }

    /** The two writes of a request that passed its checks, with what others do before each. */
    method Promote(k: nat, atInsert: seq<Action>, atMark: seq<Action>)
      requires k < |requests| && requests[k].progress.Checked? && requests[k].id < |proposals|
      requires NotOfRequest(atInsert, k) && NotOfRequest(atMark, k)
      modifies this
      ensures View() == Step(Run(Step(Run(old(View()), atInsert), Insert(k)), atMark), Mark(k))
      ensures k < |requests| && requests[k] == old(requests)[k].(progress := Marked)
      ensures requests[k].id < |proposals| && proposals[requests[k].id].accepted
    {
      OthersLeaveRequest(View(), atInsert, k);
      Await(atInsert);
      InsertRule(k);
      OthersLeaveRequest(View(), atMark, k);
      Await(atMark);
      MarkAccepted(k);
    }

    /** `accept_rule_proposal`, with what others do before its INSERT and before its
        UPDATE. A dismissed proposal can still be accepted. */
    method AcceptProposal(id: nat, atInsert: seq<Action>, atMark: seq<Action>) returns (reply: Reply)
      requires NotOfRequest(atInsert, |requests|) && NotOfRequest(atMark, |requests|)
      modifies this
      ensures reply == NotFound <==> id >= |old(proposals)|
      ensures reply == AlreadyAccepted <==> id < |old(proposals)| && old(proposals)[id].accepted
      ensures reply != Ok ==> View() == old(View())
      ensures reply == Ok ==> var k := |old(requests)|;
        View() == Step(Run(Step(Run(Step(old(View()), Check(id)), atInsert), Insert(k)), atMark), Mark(k))
      ensures reply == Ok ==> var k := |old(requests)|;
        k < |requests| && requests[k] == Request(id, old(proposals)[id], Marked)
        && id < |proposals| && proposals[id].accepted
    {
      if id >= |proposals| {
        return NotFound;
      }
      if proposals[id].accepted {
        return AlreadyAccepted;
      }
      var k := |requests|;
      requests := requests + [Request(id, proposals[id], Checked)];
      Promote(k, atInsert, atMark);
      reply := Ok;
    }

    /** `dismiss_rule_proposal`. */
    method DismissProposal(id: nat) returns (reply: Reply)
      modifies this`proposals
      ensures View() == Step(old(View()), Dismiss(id))
      ensures reply == if id >= |old(proposals)| then NotFound else Ok
      ensures id < |old(proposals)| ==>
        proposals == old(proposals)[id := old(proposals)[id].(dismissed := true)]
    {
      if id >= |proposals| {
        return NotFound;
      }
      proposals := proposals[id := proposals[id].(dismissed := true)];
      reply := Ok;
    }
  }

  lemma {:induction false} FoundStays(proposals: seq<Proposal>, n: nat, p: Proposal)
    requires n <= |proposals| && FindOpen(proposals[..n], p).Some?
    ensures FindOpen(proposals, p) == FindOpen(proposals[..n], p)
  {
    if n == |proposals| {
      assert proposals[..n] == proposals;
    } else {
      var m := |proposals| - 1;
      assert proposals[..m][..n] == proposals[..n];
      FoundStays(proposals[..m], n, p);
    }
  }
}
