/** Rule edits and open alerts. An alert knows its rule by name only, so creating, renaming, disabling,
    deleting and importing rules must leave every open alert under the name of a rule that is
    still checked, and never two open alerts under one key. */
module AlertRules {
  import opened Basics
  import opened Alerting

  ghost predicate UniqueOpen(alerts: seq<Alert>) {
    forall i, j :: 0 <= i < j < |alerts| && IsOpen(alerts[i]) && IsOpen(alerts[j]) ==> alerts[i].key != alerts[j].key
  }

  ghost predicate NamesUnique(rules: map<nat, RuleRow>) {
    forall i, j :: i in rules && j in rules && rules[i].rule.name == rules[j].rule.name ==> i == j
  }

  ghost predicate EnabledName(rules: map<nat, RuleRow>, name: string) {
    exists id :: id in rules && rules[id].enabled && rules[id].rule.name == name
  }

  /** Every open alert belongs to a rule that is still checked. */
  ghost predicate Covered(w: World) {
    forall i :: 0 <= i < |w.alerts| && IsOpen(w.alerts[i]) ==> EnabledName(w.rules, w.alerts[i].key.rule)
  }

  ghost predicate Consistent(w: World) {
    && NamesUnique(w.rules)
    && (forall id :: id in w.rules ==> id < w.nextRule)
    && UniqueOpen(w.alerts)
    && Covered(w)
  }

  /** The evaluator checks rules that are enabled at that moment. */
  ghost predicate Permitted(w: World, action: Action) {
    action.Check? ==> EnabledName(w.rules, action.rule.name)
  }

  ghost predicate Legal(actions: seq<Action>) {
    actions == [] || (Legal(Front(actions)) && Permitted(Run(Front(actions)), Last(actions)))
  }

  /** When a sample opens an alert. */
  predicate Opens(w: World, key: Key, interval: int, status: Status, at: int, fault: Fault) {
    && !Late(w, key, at) && GetsWritten(fault) && OpenAlert(w.alerts, key).None?
    && !status.Normal?
    && key in w.pending && !w.pending[key].status.Normal?
    && at - w.pending[key].since >= interval
  }

  // ---------------------------------------------------------------- single steps

  lemma ActKeepsUnique(w: World, open: Option<nat>, key: Key, interval: int, status: Status, value: real, at: int, fault: Fault)
    requires UniqueOpen(w.alerts) && Finds(w.alerts, key, open)
    ensures UniqueOpen(ActOn(w, open, key, interval, status, value, at, fault).alerts)
  {
  }

  /** A check keeps one open alert per key, whatever rule it checks. */
  lemma CheckKeepsUnique(w: World, key: Key, interval: int, status: Status, value: real, at: int, fault: Fault)
    requires UniqueOpen(w.alerts)
    ensures UniqueOpen(CheckSample(w, key, interval, status, value, at, fault).alerts)
  {
    ActKeepsUnique(w.(checked := w.checked[key := at]), OpenAlert(w.alerts, key), key, interval, status, value, at, fault);
  }

  /** The rules stay, no alert moves to another key or reopens, and at most one alert opens. */
  ghost predicate Extends(w: World, w': World, key: Key, opens: bool) {
    && w'.rules == w.rules && w'.nextRule == w.nextRule
    && |w'.alerts| == |w.alerts| + (if opens then 1 else 0)
    && (forall i :: 0 <= i < |w.alerts| ==>
          w'.alerts[i].key == w.alerts[i].key && (IsOpen(w'.alerts[i]) ==> IsOpen(w.alerts[i])))
    && (opens ==> IsOpen(Last(w'.alerts)) && Last(w'.alerts).key == key)
  }

  lemma ActExtends(w: World, open: Option<nat>, key: Key, interval: int, status: Status, value: real, at: int, fault: Fault)
    requires Finds(w.alerts, key, open)
    ensures Extends(w, ActOn(w, open, key, interval, status, value, at, fault), key,
                    && !fault.WriteFault? && open.None? && !status.Normal? && key in w.pending
                    && !w.pending[key].status.Normal? && at - w.pending[key].since >= interval)
  {
  }

  lemma CheckExtends(w: World, key: Key, interval: int, status: Status, value: real, at: int, fault: Fault)
    ensures Extends(w, CheckSample(w, key, interval, status, value, at, fault), key, Opens(w, key, interval, status, at, fault))
  {
    ActExtends(w.(checked := w.checked[key := at]), OpenAlert(w.alerts, key), key, interval, status, value, at, fault);
  }

  /** A check by a rule that may have been disabled or deleted since the rules were read: it keeps
      every open alert under a checked rule exactly when the rule is still enabled or the check
      opens nothing. */
  lemma CheckKeepsCoverIff(w: World, key: Key, interval: int, status: Status, value: real, at: int, fault: Fault)
    requires Consistent(w)
    ensures Covered(CheckSample(w, key, interval, status, value, at, fault))
       <==> EnabledName(w.rules, key.rule) || !Opens(w, key, interval, status, at, fault)
  {
    CheckExtends(w, key, interval, status, value, at, fault);
    var w' := CheckSample(w, key, interval, status, value, at, fault);
    if Opens(w, key, interval, status, at, fault) && !EnabledName(w.rules, key.rule) {
      assert IsOpen(w'.alerts[|w'.alerts| - 1]);
    }
  }

  /** Renaming a rule meets no open alert under the new name: the new name is no other rule's,
      and only rules have open alerts. This is why the renamed alerts keep distinct keys. */
  lemma RenameMeetsNoOpenAlert(w: World, id: nat, name: string)
    requires Consistent(w) && id in w.rules
    requires !NameTaken(w.rules - {id}, name) && name != w.rules[id].rule.name
    ensures forall i :: 0 <= i < |w.alerts| && IsOpen(w.alerts[i]) ==> w.alerts[i].key.rule != name
  {
    forall i | 0 <= i < |w.alerts| && IsOpen(w.alerts[i])
      ensures w.alerts[i].key.rule != name
    {
      var owner :| owner in w.rules && w.rules[owner].enabled && w.rules[owner].rule.name == w.alerts[i].key.rule;
      assert owner != id ==> owner in w.rules - {id};
    }
  }

  lemma UpdateRuleKeepsNames(w: World, id: nat, rule: Rule, enabled: bool)
    requires NamesUnique(w.rules) && id in w.rules && !NameTaken(w.rules - {id}, rule.name)
    ensures NamesUnique(w.rules[id := RuleRow(enabled, rule)])
  {
    forall j | j in w.rules && j != id ensures w.rules[j].rule.name != rule.name {
      assert j in w.rules - {id} && (w.rules - {id})[j] == w.rules[j];
    }
  }

  lemma RenameKeepsUnique(alerts: seq<Alert>, from: string, to: string)
    requires UniqueOpen(alerts)
    requires from != to ==> forall i :: 0 <= i < |alerts| && IsOpen(alerts[i]) ==> alerts[i].key.rule != to
    ensures UniqueOpen(RenameAlerts(alerts, from, to))
  {
    var renamed := RenameAlerts(alerts, from, to);
    forall i, j | 0 <= i < j < |renamed| && IsOpen(renamed[i]) && IsOpen(renamed[j])
      ensures renamed[i].key != renamed[j].key
    {
      assert alerts[i].key != alerts[j].key;
    }
  }

  lemma UpdateRuleKeepsCover(w: World, id: nat, rule: Rule, enabled: bool, now: int)
    requires Consistent(w) && id in w.rules && !NameTaken(w.rules - {id}, rule.name)
    ensures Covered(UpdateRuleStep(w, id, rule, enabled, now))
  {
    var w' := UpdateRuleStep(w, id, rule, enabled, now);
    forall i | 0 <= i < |w'.alerts| && IsOpen(w'.alerts[i])
      ensures EnabledName(w'.rules, w'.alerts[i].key.rule)
    {
      var owner :| owner in w.rules && w.rules[owner].enabled && w.rules[owner].rule.name == w.alerts[i].key.rule;
      if owner == id {
        assert w'.rules[id].enabled && w'.alerts[i].key.rule == rule.name;
      } else {
        assert w'.rules[owner] == w.rules[owner] && w'.alerts[i].key == w.alerts[i].key;
      }
    }
  }

  lemma UpdateRuleKeeps(w: World, id: nat, rule: Rule, enabled: bool, now: int)
    requires Consistent(w)
    ensures Consistent(UpdateRuleStep(w, id, rule, enabled, now))
  {
    if id in w.rules && !NameTaken(w.rules - {id}, rule.name) {
      if rule.name != w.rules[id].rule.name {
        RenameMeetsNoOpenAlert(w, id, rule.name);
      }
      UpdateRuleKeepsNames(w, id, rule, enabled);
      RenameKeepsUnique(w.alerts, w.rules[id].rule.name, rule.name);
      UpdateRuleKeepsCover(w, id, rule, enabled, now);
    }
  }

  lemma DeleteRuleKeeps(w: World, id: nat, now: int)
    requires Consistent(w)
    ensures Consistent(DeleteRuleStep(w, id, now))
  {
    if id in w.rules {
      var w' := DeleteRuleStep(w, id, now);
      forall i | 0 <= i < |w'.alerts| && IsOpen(w'.alerts[i])
        ensures EnabledName(w'.rules, w'.alerts[i].key.rule)
      {
        var owner :| owner in w.rules && w.rules[owner].enabled && w.rules[owner].rule.name == w.alerts[i].key.rule;
        assert owner in w'.rules && w'.rules[owner] == w.rules[owner];
      }
    }
  }

  /** Adding a rule, or replacing one in place, leaves every enabled name enabled. */
  lemma UpsertKeeps(w: World, w': World)
    requires Consistent(w)
    requires w'.alerts == w.alerts && NamesUnique(w'.rules)
    requires forall id :: id in w'.rules ==> id < w'.nextRule
    requires forall id :: id in w.rules ==>
      id in w'.rules && w'.rules[id].enabled == w.rules[id].enabled && w'.rules[id].rule.name == w.rules[id].rule.name
    ensures Consistent(w')
  {
    forall name | EnabledName(w.rules, name) ensures EnabledName(w'.rules, name) {
      var id :| id in w.rules && w.rules[id].enabled && w.rules[id].rule.name == name;
      assert id in w'.rules && w'.rules[id].enabled;
    }
  }

  lemma {:induction false} ImportKeeps(w: World, rules: seq<Rule>)
    requires Consistent(w)
    ensures Consistent(ImportStep(w, rules))
  {
    if rules != [] {
      ImportKeeps(w, Front(rules));
      var w1 := ImportStep(w, Front(rules));
      UpsertKeeps(w1, Upsert(w1, Last(rules)));
    }
  }

  lemma CheckKeeps(w: World, key: Key, interval: int, status: Status, value: real, at: int, fault: Fault)
    requires Consistent(w) && EnabledName(w.rules, key.rule)
    ensures Consistent(CheckSample(w, key, interval, status, value, at, fault))
  {
    CheckKeepsUnique(w, key, interval, status, value, at, fault);
    CheckExtends(w, key, interval, status, value, at, fault);
    CheckKeepsCoverIff(w, key, interval, status, value, at, fault);
  }

  lemma GoneKeeps(w: World, rule: Rule, id: nat, at: int, heard: bool)
    requires Consistent(w)
    ensures Consistent(GoneStep(w, rule, id, at, heard))
  {
  }

  lemma StepKeeps(w: World, action: Action)
    requires Consistent(w) && Permitted(w, action)
    ensures Consistent(Step(w, action))
  {
    match action
    case Check(rule, host, target, value, at, fault) =>
      CheckKeeps(w, CheckKey(action), Interval(rule), RuleStatus(rule, value), value, at, fault);
    case ResolveGone(rule, id, at, heard) => GoneKeeps(w, rule, id, at, heard);
    case ForgetGone(_, _) =>
    case Restart =>
    case CreateRule(rule, enabled) => UpsertKeeps(w, CreateRuleStep(w, rule, enabled));
    case UpdateRule(id, rule, enabled, at) => UpdateRuleKeeps(w, id, rule, enabled, at);
    case DeleteRule(id, at) => DeleteRuleKeeps(w, id, at);
    case ImportRules(rules) => ImportKeeps(w, rules);
  }

  // ---------------------------------------------------------------- whole runs

  /** Over every sequence of rule edits, evaluator checks of enabled rules and restarts, open
      alerts belong to checked rules and there is at most one per key. */
  lemma {:induction false} OpenAlertsStayCovered(actions: seq<Action>)
    requires Legal(actions)
    ensures Consistent(Run(actions))
  {
    if actions != [] {
      OpenAlertsStayCovered(Front(actions));
      StepKeeps(Run(Front(actions)), Last(actions));
    }
  }

  /** A rule that looks at a key. */
  function RuleFor(key: Key): Rule {
    Rule(key.rule, key.metric, Above, 50, 80, 0, 0, 0, 0, [key.host], key.target, key.target, key.target)
  }

  /** The rules are read once per round, and a rule can be deleted before its turn: its check then
      opens an alert that no rule covers. */
  lemma DeletedRuleOpensUncoveredAlert(key: Key)
    ensures var rule := RuleFor(key);
            var w1 := CheckSample(CreateRuleStep(EMPTY, rule, true), key, 0, Critical, 90.0, 1, NoFault);
            !Covered(CheckSample(DeleteRuleStep(w1, 0, 2), key, 0, Critical, 90.0, 3, NoFault))
  {
    var rule := RuleFor(key);
    var w0 := CreateRuleStep(EMPTY, rule, true);
    var w1 := CheckSample(w0, key, 0, Critical, 90.0, 1, NoFault);
    assert w1 == w0.(checked := map[key := 1], pending := map[key := Pending(Critical, 1)]);
    var w2 := DeleteRuleStep(w1, 0, 2);
    assert w2 == w1.(rules := map[]);
    var w3 := CheckSample(w2, key, 0, Critical, 90.0, 3, NoFault);
    CheckExtends(w2, key, 0, Critical, 90.0, 3, NoFault);
    assert IsOpen(w3.alerts[0]);
  }
}
