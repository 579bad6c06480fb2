/** The alert store and the evaluator as they run, each method proved to be the step that the run
    properties are about, and what a round over a Kubernetes cluster leaves behind. */
module Evaluation {
  import opened Basics
  import opened Alerting
  import opened AlertHistory
  import Kube
  import AlertRules
  import KubeTargets
  import RuleStore

  // ---------------------------------------------------------------- the store

  datatype Edit = Done | NotFound | NameExists

  /** A check of an endpoint, kept under the name of its rule. */
  datatype EndpointCheck = EndpointCheck(name: string, at: int, code: int)

  /** The history of a rule's checks goes with its name. */
  function RenameChecks(checks: seq<EndpointCheck>, from: string, to: string): seq<EndpointCheck> {
    seq(|checks|, i requires 0 <= i < |checks| => if checks[i].name == from then checks[i].(name := to) else checks[i])
  }

  class AlertStore {
    var rules: map<nat, RuleRow>
    var nextRule: nat
    var alerts: seq<Alert>
    var endpointChecks: seq<EndpointCheck>

    /** The tables, as a world whose evaluator has seen nothing. */
    function Tables(): World
      reads this
    {
      World(rules, nextRule, alerts, map[], map[], [])
    }

    constructor ()
      ensures Tables() == EMPTY && endpointChecks == []
    {
      rules, nextRule, alerts, endpointChecks := map[], 0, [], [];
    }

    method CreateAlert(key: Key, severity: Status, value: real, at: int) returns (id: nat)
      modifies this`alerts
      ensures id == old(|alerts|) && alerts == old(alerts) + [Alert(key, severity, value, at, at, None)]
    {
      id := |alerts|;
      alerts := alerts + [Alert(key, severity, value, at, at, None)];
    }

    method UpdateAlert(id: nat, severity: Status, value: real, at: int)
      requires id < |alerts|
      modifies this`alerts
      ensures alerts == old(alerts)[id := old(alerts)[id].(severity := severity, value := value, updatedAt := at)]
    {
      alerts := alerts[id := alerts[id].(severity := severity, value := value, updatedAt := at)];
    }

    method ResolveAlert(id: nat, value: real, at: int)
      requires id < |alerts|
      modifies this`alerts
      ensures alerts == old(alerts)[id := ResolvedAlert(old(alerts)[id], value, at)]
    {
      alerts := alerts[id := alerts[id].(value := value, updatedAt := at, resolvedAt := Some(at))];
    }

    method CreateRule(rule: Rule, enabled: bool) returns (edit: Edit)
      modifies this`rules, this`nextRule
      ensures Tables() == CreateRuleStep(old(Tables()), rule, enabled)
      ensures edit == if NameTaken(old(rules), rule.name) then NameExists else Done
      ensures edit.Done? ==> nextRule == old(nextRule) + 1 && rules == old(rules)[old(nextRule) := RuleRow(enabled, rule)]
      ensures !edit.Done? ==> nextRule == old(nextRule) && rules == old(rules)
    {
      if NameTaken(rules, rule.name) {
        return NameExists;
      }
      rules, nextRule := rules[nextRule := RuleRow(enabled, rule)], nextRule + 1;
      return Done;
    }

    /** Renaming a rule renames its open alerts, and switching it off resolves them. */
    method UpdateRule(id: nat, rule: Rule, enabled: bool, now: int) returns (edit: Edit)
      modifies this
      ensures Tables() == UpdateRuleStep(old(Tables()), id, rule, enabled, now)
      ensures edit == if id !in old(rules) then NotFound else if NameTaken(old(rules) - {id}, rule.name) then NameExists else Done
      ensures edit.Done? ==> nextRule == old(nextRule) && rules == old(rules)[id := RuleRow(enabled, rule)]
      ensures edit.Done? ==> |alerts| == old(|alerts|)
      ensures edit.Done? ==> forall i :: 0 <= i < |alerts| ==>
                RuleStore.EditedTo(old(alerts)[i], old(rules)[id].rule.name, rule.name, enabled, now, alerts[i])
      ensures !edit.Done? ==> Tables() == old(Tables()) && endpointChecks == old(endpointChecks)
      ensures |endpointChecks| == old(|endpointChecks|)
      ensures edit.Done? ==> forall i :: 0 <= i < |endpointChecks| ==>
                && endpointChecks[i].at == old(endpointChecks)[i].at && endpointChecks[i].code == old(endpointChecks)[i].code
                && endpointChecks[i].name == if old(endpointChecks)[i].name == old(rules)[id].rule.name then rule.name
                                             else old(endpointChecks)[i].name
    {
      if id !in rules {
        return NotFound;
      }
      var oldName := rules[id].rule.name;
      if NameTaken(rules - {id}, rule.name) {
        return NameExists;
      }
      rules := rules[id := RuleRow(enabled, rule)];
      if rule.name != oldName {
        alerts := RenameAlerts(alerts, oldName, rule.name);
        endpointChecks := RenameChecks(endpointChecks, oldName, rule.name);
      } else {
        assert RenameAlerts(alerts, oldName, rule.name) == alerts;
        assert RenameChecks(endpointChecks, oldName, rule.name) == endpointChecks;
      }
      if !enabled {
        alerts := ResolveRuleAlerts(alerts, rule.name, now);
      }
      return Done;
    }

    method DeleteRule(id: nat, now: int) returns (edit: Edit)
      modifies this`rules, this`alerts
      ensures Tables() == DeleteRuleStep(old(Tables()), id, now)
      ensures edit == if id !in old(rules) then NotFound else Done
      ensures edit.Done? ==> rules == old(rules) - {id} && |alerts| == old(|alerts|)
      ensures edit.Done? ==> forall i :: 0 <= i < |alerts| ==>
                RuleStore.EditedTo(old(alerts)[i], old(rules)[id].rule.name, old(rules)[id].rule.name, false, now, alerts[i])
      ensures !edit.Done? ==> Tables() == old(Tables())
    {
      if id !in rules {
        return NotFound;
      }
      var name := rules[id].rule.name;
      rules := rules - {id};
      alerts := ResolveRuleAlerts(alerts, name, now);
      return Done;
    }

    /** Each rule is new, or takes the place of its namesake. */
    method ImportRules(imported: seq<Rule>) returns (added: nat, updated: nat)
      modifies this`rules, this`nextRule
      ensures Tables() == ImportStep(old(Tables()), imported)
      ensures added + updated == |imported| && nextRule == old(nextRule) + added
      ensures RuleStore.Filed(old(Tables())) ==> RuleStore.ReadsBack(old(Tables()), imported, Tables())
    {
      added, updated := 0, 0;
      for i := 0 to |imported|
        invariant Tables() == ImportStep(old(Tables()), imported[..i])
        invariant added + updated == i && nextRule == old(nextRule) + added
      {
        assert Front(imported[..i + 1]) == imported[..i];
        var rule := imported[i];
        if NameTaken(rules, rule.name) {
          rules := map id | id in rules ::
            if rules[id].rule.name == rule.name then RuleRow(rules[id].enabled, rule) else rules[id];
          updated := updated + 1;
        } else {
          rules, nextRule := rules[nextRule := RuleRow(true, rule)], nextRule + 1;
          added := added + 1;
        }
      }
      assert imported[..|imported|] == imported;
      if RuleStore.Filed(old(Tables())) {
        RuleStore.ImportReadsBack(old(Tables()), imported);
      }
    }
  }

  // ---------------------------------------------------------------- the evaluator

  predicate IsStale(state: Kube.ClusterState, now: int) {
    now - state.time * SECOND > 90 * SECOND
  }

  predicate Watches(rule: Rule, key: Key) {
    key.rule == rule.name && key.metric == rule.metric
  }

  /** The keys of a Kubernetes rule's targets. */
  predicate InFamily(rule: Rule, key: Key) {
    key.host == "" && Watches(rule, key)
  }

  /** The tables and maps outside a rule's own alerts and keys stay as they were. */
  ghost predicate OthersKept(w: World, w': World, rule: Rule) {
    && w'.rules == w.rules && |w.alerts| <= |w'.alerts|
    && (forall i :: 0 <= i < |w.alerts| ==> w'.alerts[i].key == w.alerts[i].key)
    && (forall i :: 0 <= i < |w.alerts| && !Watches(rule, w.alerts[i].key) ==> w'.alerts[i] == w.alerts[i])
    && (forall key :: !InFamily(rule, key) ==> SameAt(w.pending, w'.pending, key) && SameAt(w.checked, w'.checked, key))
  }

  /** A rule's open alerts and what the evaluator remembers of it are all on present targets. */
  ghost predicate OnlyPresent(w: World, rule: Rule, present: set<string>) {
    && (forall i :: 0 <= i < |w.alerts| && IsOpen(w.alerts[i]) && Watches(rule, w.alerts[i].key) ==> w.alerts[i].key.target in present)
    && (forall key :: key in w.pending && InFamily(rule, key) ==> key.target in present)
    && (forall key :: key in w.checked && InFamily(rule, key) ==> key.target in present)
  }

  lemma CheckKeepsOthers(w: World, rule: Rule, target: string, value: real, at: int, fault: Fault)
    ensures OthersKept(w, CheckStep(w, rule, "", target, value, at, fault), rule)
  {
    var touched, status := Key("", rule.name, rule.metric, target), RuleStatus(rule, value);
    CheckTouchesOnly(w, touched, Interval(rule), status, value, at, fault);
    AlertRules.CheckExtends(w, touched, Interval(rule), status, value, at, fault);
    forall key | !InFamily(rule, key)
      ensures SameAt(w.pending, CheckStep(w, rule, "", target, value, at, fault).pending, key)
      ensures SameAt(w.checked, CheckStep(w, rule, "", target, value, at, fault).checked, key)
    {
      CheckRemembersOnly(w, touched, Interval(rule), status, value, at, fault, key);
    }
  }

  lemma OthersKeptTwice(w: World, w1: World, w2: World, rule: Rule)
    requires OthersKept(w, w1, rule) && OthersKept(w1, w2, rule)
    ensures OthersKept(w, w2, rule)
  {
    forall key | !InFamily(rule, key) ensures SameAt(w.pending, w2.pending, key) && SameAt(w.checked, w2.checked, key) {
      assert SameAt(w.pending, w1.pending, key) && SameAt(w1.pending, w2.pending, key);
      assert SameAt(w.checked, w1.checked, key) && SameAt(w1.checked, w2.checked, key);
    }
  }

  function CheckOf(rule: Rule, target: KubeTargets.Target, at: int, fault: Fault): Action {
    Action.Check(rule, "", target.name, target.value as real, at, fault)
  }

  /** The checks of a round, one per target and in order, as far as they went. */
  lemma OneMoreCheck(start: World, before: World, after: World, rule: Rule, target: KubeTargets.Target, at: int,
                     fault: Fault, checks: seq<Action>)
    requires before == RunFrom(start, checks) && OthersKept(start, before, rule)
    requires after == CheckStep(before, rule, "", target.name, target.value as real, at, fault)
    ensures after == RunFrom(start, checks + [CheckOf(rule, target, at, fault)]) && OthersKept(start, after, rule)
  {
    CheckKeepsOthers(before, rule, target.name, target.value as real, at, fault);
    OthersKeptTwice(start, before, after, rule);
    RunFromOneMore(start, checks, CheckOf(rule, target, at, fault));
  }

  predicate AreChecks(actions: seq<Action>, rule: Rule, targets: seq<KubeTargets.Target>, at: int, faults: nat -> Fault) {
    |actions| <= |targets| && forall i :: 0 <= i < |actions| ==> actions[i] == CheckOf(rule, targets[i], at, faults(i))
  }

  lemma AreChecksOneMore(actions: seq<Action>, rule: Rule, targets: seq<KubeTargets.Target>, at: int, faults: nat -> Fault)
    requires AreChecks(actions, rule, targets, at, faults) && |actions| < |targets|
    ensures AreChecks(actions + [CheckOf(rule, targets[|actions|], at, faults(|actions|))], rule, targets, at, faults)
  {
  }

  // ---------------------------------------------------------------- targets that are gone

  predicate IsGoneAlert(alert: Alert, rule: Rule, present: set<string>) {
    IsOpen(alert) && Watches(rule, alert.key) && alert.key.target !in present
  }

  ghost predicate InTable(alerts: seq<Alert>, ids: seq<nat>) {
    forall k :: 0 <= k < |ids| ==> ids[k] < |alerts|
  }

  function InsertNewest(alerts: seq<Alert>, id: nat, ids: seq<nat>): (r: seq<nat>)
    requires id < |alerts| && InTable(alerts, ids)
    ensures InTable(alerts, r) && |r| == |ids| + 1 && forall x :: x in r <==> x == id || x in ids
  {
    if ids == [] || alerts[id].startedAt >= alerts[ids[0]].startedAt then [id] + ids
    else [ids[0]] + InsertNewest(alerts, id, ids[1..])
  }

  /** The open alerts of a rule among the first n, newest first. */
  function OpenAlertsOf(alerts: seq<Alert>, rule: string, n: nat): (ids: seq<nat>)
    requires n <= |alerts|
    ensures InTable(alerts, ids) && forall id: nat :: id in ids <==> id < n && IsOpen(alerts[id]) && alerts[id].key.rule == rule
  {
    if n == 0 then []
    else if IsOpen(alerts[n - 1]) && alerts[n - 1].key.rule == rule then InsertNewest(alerts, n - 1, OpenAlertsOf(alerts, rule, n - 1))
    else OpenAlertsOf(alerts, rule, n - 1)
  }

  /** No alert is in the list twice, and none comes after an older one. */
  ghost predicate NewestFirst(alerts: seq<Alert>, ids: seq<nat>) {
    InTable(alerts, ids) && Distinct(ids) && Descending(alerts, ids)
  }

  ghost predicate Descending(alerts: seq<Alert>, ids: seq<nat>)
    requires InTable(alerts, ids)
  {
    forall i, j :: 0 <= i < j < |ids| ==> alerts[ids[i]].startedAt >= alerts[ids[j]].startedAt
  }

  lemma {:induction false} InsertKeepsDistinct(alerts: seq<Alert>, id: nat, ids: seq<nat>)
    requires id < |alerts| && InTable(alerts, ids) && Distinct(ids) && id !in ids
    ensures Distinct(InsertNewest(alerts, id, ids))
  {
    if ids != [] && alerts[id].startedAt < alerts[ids[0]].startedAt {
      InsertKeepsDistinct(alerts, id, ids[1..]);
      assert ids[0] !in InsertNewest(alerts, id, ids[1..]);
    }
  }

  lemma {:induction false} InsertKeepsOrder(alerts: seq<Alert>, id: nat, ids: seq<nat>)
    requires id < |alerts| && InTable(alerts, ids) && Descending(alerts, ids)
    ensures Descending(alerts, InsertNewest(alerts, id, ids))
  {
    if ids != [] && alerts[id].startedAt < alerts[ids[0]].startedAt {
      var rest := ids[1..];
      InsertKeepsOrder(alerts, id, rest);
      var r := InsertNewest(alerts, id, rest);
      forall k | 0 <= k < |r| ensures alerts[ids[0]].startedAt >= alerts[r[k]].startedAt {
        assert r[k] == id || r[k] in rest;
      }
    }
  }

  /** The list a sweep goes through: each open alert of the rule once, newest first. */
  lemma {:induction false} OpenAlertsAreListed(alerts: seq<Alert>, rule: string, n: nat)
    requires n <= |alerts|
    ensures NewestFirst(alerts, OpenAlertsOf(alerts, rule, n))
  {
    if n > 0 {
      OpenAlertsAreListed(alerts, rule, n - 1);
      OneMoreListed(alerts, rule, n - 1, OpenAlertsOf(alerts, rule, n - 1));
    }
  }

  lemma OneMoreListed(alerts: seq<Alert>, rule: string, id: nat, ids: seq<nat>)
    requires id < |alerts| && ids == OpenAlertsOf(alerts, rule, id) && NewestFirst(alerts, ids)
    ensures NewestFirst(alerts, OpenAlertsOf(alerts, rule, id + 1))
  {
    assert id !in ids;
    InsertKeepsNewestFirst(alerts, id, ids);
  }

  lemma InsertKeepsNewestFirst(alerts: seq<Alert>, id: nat, ids: seq<nat>)
    requires id < |alerts| && NewestFirst(alerts, ids) && id !in ids
    ensures NewestFirst(alerts, InsertNewest(alerts, id, ids))
  {
    InsertKeepsDistinct(alerts, id, ids);
    InsertKeepsOrder(alerts, id, ids);
  }

  /** The world after some alerts were looked at, and those on targets that are gone resolved. */
  function GoneList(w: World, rule: Rule, present: set<string>, at: int, ids: seq<nat>): World
    requires InTable(w.alerts, ids)
  {
    if ids == [] then w
    else
      var before := GoneList(w, rule, present, at, Front(ids));
      if IsGoneAlert(w.alerts[Last(ids)], rule, present) then GoneStep(before, rule, Last(ids), at, true) else before
  }

  /** The end of a round: the alerts on targets that are gone resolve, and those targets are forgotten. */
  function GoneRound(w: World, rule: Rule, present: set<string>, at: int): World {
    ForgetStep(GoneList(w, rule, present, at, OpenAlertsOf(w.alerts, rule.name, |w.alerts|)), rule, present)
  }

  /** A sweep that stopped: some alerts were looked at, and the answer about one more may be `lost`. */
  function GoneBroken(w: World, rule: Rule, present: set<string>, at: int, ids: seq<nat>, lost: Option<nat>): World
    requires InTable(w.alerts, ids)
  {
    var before := GoneList(w, rule, present, at, ids);
    if lost.Some? then GoneStep(before, rule, lost.value, at, false) else before
  }

  /** Exactly those alerts resolve, and nothing else changes but the notices. */
  ghost predicate ResolvesGone(w: World, w': World, rule: Rule, present: set<string>, at: int, ids: seq<nat>) {
    && w'.rules == w.rules && w'.nextRule == w.nextRule && w'.pending == w.pending && w'.checked == w.checked
    && |w'.alerts| == |w.alerts|
    && forall i :: 0 <= i < |w.alerts| ==>
         w'.alerts[i] == if i in ids && IsGoneAlert(w.alerts[i], rule, present) then ResolvedAlert(w.alerts[i], 0.0, at) else w.alerts[i]
  }

  lemma {:induction false} GoneListResolves(w: World, rule: Rule, present: set<string>, at: int, ids: seq<nat>)
    requires InTable(w.alerts, ids) && Distinct(ids)
    ensures ResolvesGone(w, GoneList(w, rule, present, at, ids), rule, present, at, ids)
  {
    if ids != [] {
      DistinctFront(ids);
      GoneListResolves(w, rule, present, at, Front(ids));
      assert ids == Front(ids) + [Last(ids)];
    }
  }

  /** The alert a sweep comes to next is as it was when the sweep began. */
  lemma NextGone(w: World, rule: Rule, present: set<string>, at: int, ids: seq<nat>, k: nat)
    requires ids == OpenAlertsOf(w.alerts, rule.name, |w.alerts|) && Distinct(ids) && k < |ids|
    ensures InTable(w.alerts, ids[..k]) && InTable(w.alerts, ids[..k + 1])
    ensures var mid, id := GoneList(w, rule, present, at, ids[..k]), ids[k];
            && id < |mid.alerts| == |w.alerts| && mid.alerts[id] == w.alerts[id]
            && IsOpen(w.alerts[id]) && w.alerts[id].key.rule == rule.name
            && GoneList(w, rule, present, at, ids[..k + 1])
               == if IsGoneAlert(w.alerts[id], rule, present) then GoneStep(mid, rule, id, at, true) else mid
  {
    assert ids[k] in ids && ids[k] !in ids[..k];
    assert Front(ids[..k + 1]) == ids[..k] && Last(ids[..k + 1]) == ids[k];
    GoneListResolves(w, rule, present, at, ids[..k]);
  }

  lemma GoneKeepsOthers(w: World, w': World, rule: Rule, present: set<string>, at: int, ids: seq<nat>)
    requires ResolvesGone(w, w', rule, present, at, ids)
    ensures OthersKept(w, w', rule)
  {
  }

  /** The round's end leaves the rule's alerts and keys on present targets, and other rules alone. */
  lemma GoneRoundLeaves(w: World, rule: Rule, present: set<string>, at: int)
    ensures OnlyPresent(GoneRound(w, rule, present, at), rule, present)
    ensures OthersKept(w, GoneRound(w, rule, present, at), rule)
  {
    var ids := OpenAlertsOf(w.alerts, rule.name, |w.alerts|);
    OpenAlertsAreListed(w.alerts, rule.name, |w.alerts|);
    GoneListResolves(w, rule, present, at, ids);
    ForgetLeaves(w, GoneList(w, rule, present, at, ids), rule, present, at, ids);
  }

  lemma ForgetLeaves(w: World, w': World, rule: Rule, present: set<string>, at: int, ids: seq<nat>)
    requires ResolvesGone(w, w', rule, present, at, ids)
    requires forall i :: 0 <= i < |w.alerts| && IsGoneAlert(w.alerts[i], rule, present) ==> i in ids
    ensures OnlyPresent(ForgetStep(w', rule, present), rule, present)
    ensures OthersKept(w, ForgetStep(w', rule, present), rule)
  {
  }

  /** The resolutions as actions of a run. */
  function Resolutions(alerts: seq<Alert>, rule: Rule, present: set<string>, at: int, ids: seq<nat>): seq<Action>
    requires InTable(alerts, ids)
  {
    if ids == [] then []
    else
      var before := Resolutions(alerts, rule, present, at, Front(ids));
      if IsGoneAlert(alerts[Last(ids)], rule, present) then before + [Action.ResolveGone(rule, Last(ids), at, true)] else before
  }

  lemma {:induction false} GoneListIsRun(w: World, rule: Rule, present: set<string>, at: int, ids: seq<nat>)
    requires InTable(w.alerts, ids)
    ensures GoneList(w, rule, present, at, ids) == RunFrom(w, Resolutions(w.alerts, rule, present, at, ids))
  {
    if ids != [] {
      GoneListIsRun(w, rule, present, at, Front(ids));
      RunFromOneMore(w, Resolutions(w.alerts, rule, present, at, Front(ids)), Action.ResolveGone(rule, Last(ids), at, true));
    }
  }

  /** So what holds of every run holds of rounds over a cluster too, whole ones and broken ones. */
  lemma GoneRoundIsRun(w: World, rule: Rule, present: set<string>, at: int, ids: seq<nat>, lost: Option<nat>)
    requires InTable(w.alerts, ids)
    ensures var all := OpenAlertsOf(w.alerts, rule.name, |w.alerts|);
            GoneRound(w, rule, present, at) == RunFrom(w, Resolutions(w.alerts, rule, present, at, all) + [ForgetGone(rule, present)])
    ensures GoneBroken(w, rule, present, at, ids, lost)
         == RunFrom(w, if lost.Some? then Resolutions(w.alerts, rule, present, at, ids) + [Action.ResolveGone(rule, lost.value, at, false)]
                       else Resolutions(w.alerts, rule, present, at, ids))
  {
    var all := OpenAlertsOf(w.alerts, rule.name, |w.alerts|);
    GoneListIsRun(w, rule, present, at, all);
    RunFromOneMore(w, Resolutions(w.alerts, rule, present, at, all), ForgetGone(rule, present));
    GoneListIsRun(w, rule, present, at, ids);
    if lost.Some? {
      RunFromOneMore(w, Resolutions(w.alerts, rule, present, at, ids), Action.ResolveGone(rule, lost.value, at, false));
    }
  }

  /** Where a sweep stopped: the alerts it has looked at are the first of its list, and the one whose
      answer was lost comes next and is gone. */
  ghost predicate Stopped(w: World, rule: Rule, present: set<string>, looked: seq<nat>, lost: Option<nat>) {
    var ids := OpenAlertsOf(w.alerts, rule.name, |w.alerts|);
    && looked <= ids
    && (lost.Some? ==> |looked| < |ids| && ids[|looked|] == lost.value
                       && lost.value < |w.alerts| && IsGoneAlert(w.alerts[lost.value], rule, present))
  }

  /** A sweep, whole or broken off, leaves other rules alone, and a whole one leaves the rule's alerts
      and keys on present targets. */
  lemma SweepLeaves(w: World, rule: Rule, present: set<string>, at: int, ok: bool, looked: seq<nat>, lost: Option<nat>, w': World)
    requires Stopped(w, rule, present, looked, lost) && InTable(w.alerts, looked)
    requires w' == if ok then GoneRound(w, rule, present, at) else GoneBroken(w, rule, present, at, looked, lost)
    ensures OthersKept(w, w', rule) && (ok ==> OnlyPresent(w', rule, present))
  {
    if ok {
      GoneRoundLeaves(w, rule, present, at);
    } else {
      OpenAlertsAreListed(w.alerts, rule.name, |w.alerts|);
      var ids := OpenAlertsOf(w.alerts, rule.name, |w.alerts|);
      assert forall k :: 0 <= k < |looked| ==> looked[k] == ids[k];
      GoneListResolves(w, rule, present, at, looked);
      GoneKeepsOthers(w, GoneList(w, rule, present, at, looked), rule, present, at, looked);
    }
  }

  function TargetsOf(rule: Rule, namespace: string, state: Kube.ClusterState, restarts: Option<map<string,
                     int>>): seq<KubeTargets.Target> {
    KubeTargets.Targets(rule.metric, namespace, state, if restarts.Some? then restarts.value else map[])
  }

  /** What a round over a fresh state has done: the checks of the targets up to the first that failed,
      and after all of them the sweep, up to where it failed. */
  ghost predicate RoundDone(rule: Rule, targets: seq<KubeTargets.Target>, at: int, w: World, w': World,
                            ok: bool, checks: seq<Action>, looked: seq<nat>, lost: Option<nat>, faults: nat -> Fault) {
    var present := set t | t in targets :: t.name;
    var checked := RunFrom(w, checks);
    && AreChecks(checks, rule, targets, at, faults)
    && (ok ==> |checks| == |targets| && OnlyPresent(w', rule, present) && w' == GoneRound(checked, rule, present, at))
    && (!ok ==> w' == checked
                || (|checks| == |targets| && InTable(checked.alerts, looked) && Stopped(checked, rule, present, looked, lost)
                    && w' == GoneBroken(checked, rule, present, at, looked, lost)))
  }

  ghost predicate NoFaults(faults: nat -> Fault) {
    forall i :: faults(i).NoFault?
  }

  class Evaluator {
    const store: AlertStore
    var pending: map<Key, Pending>
    var checked: map<Key, int>
    var sent: seq<Notice>

    ghost function State(): World
      reads this, store
    {
      World(store.rules, store.nextRule, store.alerts, pending, checked, sent)
    }

    /** An evaluator that starts on a store, with its memory empty. */
    constructor (store: AlertStore)
      ensures this.store == store && pending == map[] && checked == map[] && sent == []
    {
      this.store := store;
      pending, checked, sent := map[], map[], [];
    }

    method Notify(notice: Notice)
      modifies this`sent
      ensures sent == old(sent) + [notice]
    {
      sent := sent + [notice];
    }

    /** One value of a rule's target. It fails when a store call it needs fails. */
    method Check(rule: Rule, host: string, target: string, value: real, at: int, fault: Fault) returns (ok: bool)
      modifies this, store
      ensures State() == CheckStep(old(State()), rule, host, target, value, at, fault)
      ensures fault.NoFault? ==> ok
    {
      var key := Key(host, rule.name, rule.metric, target);
      if key in checked && at <= checked[key] {
        return true;
      }
      checked := checked[key := at];
      var status := RuleStatus(rule, value);
      if fault.ReadFault? {
        return false;
      }
      var open := OpenAlert(store.alerts, key);
      if open.Some? {
        ok := UpdateOpen(Interval(rule), key, open.value, status, value, at, fault);
      } else {
        ok := OpenIfBreached(Interval(rule), key, status, value, at, fault);
      }
    }

    method UpdateOpen(interval: int, key: Key, id: nat, status: Status, value: real, at: int, fault: Fault) returns (ok: bool)
      requires id < |store.alerts|
      modifies this, store
      ensures State() == Alerting.UpdateOpen(old(State()), interval, key, id, status, value, at, fault)
      ensures fault.NoFault? ==> ok
    {
      if status.Normal? {
        if key !in pending || !pending[key].status.Normal? {
          pending := pending[key := Pending(Normal, at)];
          return true;
        }
        if at - pending[key].since < interval {
          return true;
        }
        if fault.WriteFault? {
          return false;
        }
        store.ResolveAlert(id, value, at);
        if fault.AnswerLost? {
          return false;
        }
        pending := pending - {key};
        Notify(Notice(id, key, Resolved, status, value, at));
        return true;
      }
      pending := pending - {key};
      if status == store.alerts[id].severity {
        return true;
      }
      if fault.WriteFault? {
        return false;
      }
      store.UpdateAlert(id, status, value, at);
      if fault.AnswerLost? {
        return false;
      }
      Notify(Notice(id, key, Changed, status, value, at));
      return true;
    }

    method OpenIfBreached(interval: int, key: Key, status: Status, value: real, at: int, fault: Fault) returns (ok: bool)
      modifies this, store
      ensures State() == Alerting.OpenIfBreached(old(State()), interval, key, status, value, at, fault)
      ensures fault.NoFault? ==> ok
    {
      if status.Normal? {
        pending := pending - {key};
        return true;
      }
      if key !in pending || pending[key].status.Normal? {
        pending := pending[key := Pending(status, at)];
        return true;
      }
      if at - pending[key].since < interval {
        return true;
      }
      if fault.WriteFault? {
        return false;
      }
      var id := store.CreateAlert(key, status, value, at);
      if fault.AnswerLost? {
        return false;
      }
      pending := pending - {key};
      Notify(Notice(id, key, Opened, status, value, at));
      return true;
    }

    /** Resolves the open alerts of a Kubernetes rule whose targets are gone, newest first, tells the
        channels, and forgets those targets. It stops where the open alerts cannot be `listed`, or
        where resolving one fails: those before it are resolved and told, and nothing is forgotten. */
    method ResolveGone(rule: Rule, present: set<string>, at: int, listed: bool, answers: nat -> Fault)
      returns (ok: bool, ghost looked: seq<nat>, ghost lost: Option<nat>)
      modifies this, store
      ensures listed && NoFaults(answers) ==> ok
      ensures InTable(old(State()).alerts, looked) && Stopped(old(State()), rule, present, looked, lost)
      ensures State() == if ok then GoneRound(old(State()), rule, present, at)
                         else GoneBroken(old(State()), rule, present, at, looked, lost)
    {
      ghost var before := State();
      looked, lost := [], None;
      if !listed {
        return false, looked, lost;
      }
      var ids := OpenAlertsOf(store.alerts, rule.name, |store.alerts|);
      OpenAlertsAreListed(store.alerts, rule.name, |store.alerts|);
      for k := 0 to |ids|
        invariant looked == ids[..k] && lost.None? && State() == GoneList(before, rule, present, at, ids[..k])
      {
        NextGone(before, rule, present, at, ids, k);
        var alert := store.alerts[ids[k]];
        if alert.key.metric == rule.metric && alert.key.target !in present {
          var answer := answers(ids[k]);
          if answer.NoFault? {
            store.ResolveAlert(ids[k], 0.0, at);
            Notify(Notice(ids[k], alert.key, Resolved, Normal, 0.0, at));
          } else {
            if answer.AnswerLost? {
              store.ResolveAlert(ids[k], 0.0, at);
              lost := Some(ids[k]);
            }
            return false, looked, lost;
          }
        }
        looked := ids[..k + 1];
      }
      assert ids[..|ids|] == ids;
      pending := Forget(pending, rule, present);
      checked := Forget(checked, rule, present);
      return true, looked, lost;
    }

    /** Checks the targets one after the other, and stops at the first check that fails. */
    method CheckTargets(rule: Rule, targets: seq<KubeTargets.Target>, at: int,
                        faults: nat -> Fault) returns (ok: bool, ghost checks: seq<Action>)
      modifies this, store
      ensures AreChecks(checks, rule, targets, at, faults) && State() == RunFrom(old(State()), checks)
      ensures NoFaults(faults) ==> ok
      ensures ok ==> |checks| == |targets|
      ensures OthersKept(old(State()), State(), rule)
    {
      checks := [];
      ghost var start := State();
      for i := 0 to |targets|
        invariant State() == RunFrom(start, checks) && |checks| == i && AreChecks(checks, rule, targets, at, faults)
        invariant OthersKept(start, State(), rule)
      {
        ghost var before := State();
        var succeeded := Check(rule, "", targets[i].name, targets[i].value as real, at, faults(i));
        OneMoreCheck(start, before, State(), rule, targets[i], at, faults(i), checks);
        AreChecksOneMore(checks, rule, targets, at, faults);
        checks := checks + [CheckOf(rule, targets[i], at, faults(i))];
        if !succeeded {
          return false, checks;
        }
      }
      return true, checks;
    }

    /** A round over a cluster's newest state: every target is checked and what is gone resolves. A
        stale state counts as none. After a round that succeeded on a fresh state, the rule's
        open alerts and everything remembered about it are on targets that are in the cluster. A
        round that fails has done the checks and resolutions up to where it failed. Nothing of other
        rules is ever touched. */
    method EvaluateCluster(rule: Rule, namespace: string, read: bool, state: Option<Kube.ClusterState>,
                           restarts: Option<map<string, int>>,
                           now: int, faults: nat -> Fault, listed: bool, answers: nat -> Fault)
      returns (ok: bool, ghost checks: seq<Action>, ghost looked: seq<nat>, ghost lost: Option<nat>)
      modifies this, store
      ensures !read ==> !ok && State() == old(State())
      ensures read && (state.None? || now > (state.value.time + 90) * SECOND) ==> ok && State() == old(State())
      ensures read && state.Some? && now <= (state.value.time + 90) * SECOND && rule.metric.KubeRestarts? && restarts.None? ==>
                !ok && State() == old(State())
      ensures read && state.Some? && now <= (state.value.time + 90) * SECOND && (rule.metric.KubeRestarts? ==> restarts.Some?) ==>
                RoundDone(rule, TargetsOf(rule, namespace, state.value, restarts), state.value.time * SECOND,
                          old(State()), State(), ok, checks, looked, lost, faults)
      ensures read && listed && (rule.metric.KubeRestarts? ==> restarts.Some?) && NoFaults(faults) && NoFaults(answers) ==> ok
      ensures OthersKept(old(State()), State(), rule)
    {
      checks, looked, lost := [], [], None;
      if !read {
        return false, checks, looked, lost;
      }
      if state.None? || IsStale(state.value, now) {
        return true, checks, looked, lost;
      }
      if rule.metric.KubeRestarts? && restarts.None? {
        return false, checks, looked, lost;
      }
      var at := state.value.time * SECOND;
      var targets := TargetsOf(rule, namespace, state.value, restarts);
      ok, checks := CheckTargets(rule, targets, at, faults);
      if ok {
        ghost var before := State();
        ok, looked, lost := ResolveGone(rule, set t | t in targets :: t.name, at, listed, answers);
        SweepLeaves(before, rule, set t | t in targets :: t.name, at, ok, looked, lost, State());
        OthersKeptTwice(old(State()), before, State(), rule);
      }
    }
  }
}
