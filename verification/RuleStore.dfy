/** What the rule table holds: an edit that succeeds is read back whole, touches no other rule and stays
    until the next edit of its rule. */
module RuleStore {
  import opened Basics
  import opened Alerting
  import opened AlertRules

  /** Names and ids of the rule table are unique, and ids are not used again. */
  ghost predicate Filed(w: World) {
    NamesUnique(w.rules) && forall id :: id in w.rules ==> id < w.nextRule
  }

  /** Two rule tables differ at most at one id. */
  ghost predicate SameBut(rules: map<nat, RuleRow>, rules': map<nat, RuleRow>, id: nat) {
    forall other :: other != id ==> (other in rules' <==> other in rules) && (other in rules ==> rules'[other] == rules[other])
  }

  // ---------------------------------------------------------------- single edits

  lemma CreatedReadsBack(w: World, rule: Rule, enabled: bool)
    requires !NameTaken(w.rules, rule.name)
    ensures var w' := CreateRuleStep(w, rule, enabled);
            && w.nextRule in w'.rules && w'.rules[w.nextRule].rule == rule && w'.rules[w.nextRule].enabled == enabled
            && SameBut(w.rules, w'.rules, w.nextRule) && w'.nextRule == w.nextRule + 1 && w'.alerts == w.alerts
  {
  }

  /** What an edit makes of an alert. An open alert of the rule goes with the rule's name; it is resolved
      when the rule is switched off; and every other alert is as it was. */
  predicate EditedTo(alert: Alert, from: string, to: string, enabled: bool, now: int, alert': Alert) {
    if !IsOpen(alert) then alert' == alert
    else if alert.key.rule == from || (alert.key.rule == to && !enabled) then
      && alert'.key == Key(alert.key.host, to, alert.key.metric, alert.key.target)
      && alert'.severity == alert.severity && alert'.value == alert.value && alert'.startedAt == alert.startedAt
      && (enabled ==> IsOpen(alert') && alert'.updatedAt == alert.updatedAt)
      && (!enabled ==> alert'.resolvedAt == Some(now) && alert'.updatedAt == now)
    else alert' == alert
  }

  lemma UpdatedReadsBack(w: World, id: nat, rule: Rule, enabled: bool, now: int)
    requires id in w.rules && !NameTaken(w.rules - {id}, rule.name)
    ensures var w' := UpdateRuleStep(w, id, rule, enabled, now);
            && id in w'.rules && w'.rules[id].rule == rule && w'.rules[id].enabled == enabled
            && SameBut(w.rules, w'.rules, id) && w'.nextRule == w.nextRule
            && |w'.alerts| == |w.alerts|
            && (forall i :: 0 <= i < |w.alerts| ==>
                  EditedTo(w.alerts[i], w.rules[id].rule.name, rule.name, enabled, now, w'.alerts[i]))
  {
  }

  lemma DeletedIsGone(w: World, id: nat, now: int)
    requires id in w.rules
    ensures var w', name := DeleteRuleStep(w, id, now), w.rules[id].rule.name;
            && id !in w'.rules && SameBut(w.rules, w'.rules, id) && w'.nextRule == w.nextRule
            && |w'.alerts| == |w.alerts|
            && forall i :: 0 <= i < |w.alerts| ==> EditedTo(w.alerts[i], name, name, false, now, w'.alerts[i])
  {
  }

  // ---------------------------------------------------------------- imports

  ghost predicate Names(rules: seq<Rule>, name: string) {
    exists k :: 0 <= k < |rules| && rules[k].name == name
  }

  /** A rule is the last of its name in a file. */
  ghost predicate LastOfName(rules: seq<Rule>, rule: Rule) {
    exists k :: 0 <= k < |rules| && rules[k] == rule && forall j :: k < j < |rules| ==> rules[j].name != rule.name
  }

  /** Nothing goes, no rule is switched on or off, and a name that is not in the file has what it had. */
  ghost predicate RulesKept(w: World, rules: seq<Rule>, w': World) {
    && w'.alerts == w.alerts && w.nextRule <= w'.nextRule
    && (forall id :: id in w.rules ==> id in w'.rules)
    && (forall id :: id in w.rules ==> w'.rules[id].enabled == w.rules[id].enabled && w'.rules[id].rule.name == w.rules[id].rule.name)
    && (forall id :: id in w.rules && !Names(rules, w.rules[id].rule.name) ==> w'.rules[id] == w.rules[id])
  }

  /** Every name of the file is in the table, with the last rule of that name. */
  ghost predicate FileHeld(rules: seq<Rule>, w': World) {
    && (forall k :: 0 <= k < |rules| ==> NameTaken(w'.rules, rules[k].name))
    && (forall id :: id in w'.rules && Names(rules, w'.rules[id].rule.name) ==> LastOfName(rules, w'.rules[id].rule))
  }

  /** What is new has a new id and a name of the file, and is enabled. */
  ghost predicate NewRows(w: World, rules: seq<Rule>, w': World) {
    forall id :: id in w'.rules && id !in w.rules ==>
      w.nextRule <= id && w'.rules[id].enabled && Names(rules, w'.rules[id].rule.name)
  }

  /** What a table reads after an import. */
  ghost predicate ReadsBack(w: World, rules: seq<Rule>, w': World) {
    RulesKept(w, rules, w') && FileHeld(rules, w') && NewRows(w, rules, w')
  }

  lemma NamesOneMore(before: seq<Rule>, rule: Rule, name: string)
    ensures Names(before + [rule], name) <==> Names(before, name) || rule.name == name
  {
    var all := before + [rule];
    assert all[|before|] == rule && forall k :: 0 <= k < |before| ==> all[k] == before[k];
  }

  lemma LastOfNameOneMore(before: seq<Rule>, rule: Rule, last: Rule)
    requires last == rule || (LastOfName(before, last) && last.name != rule.name)
    ensures LastOfName(before + [rule], last)
  {
    var all := before + [rule];
    assert all[|before|] == rule && forall k :: 0 <= k < |before| ==> all[k] == before[k];
    if last != rule {
      var k :| 0 <= k < |before| && before[k] == last && forall j :: k < j < |before| ==> before[j].name != last.name;
      assert all[k] == last;
    }
  }

  /** What one rule of a file does to the table: it takes the place of its namesake, or it is new. */
  ghost predicate TookIn(mid: World, rule: Rule, w': World) {
    && mid.nextRule <= w'.nextRule && w'.alerts == mid.alerts && NameTaken(w'.rules, rule.name)
    && (forall id :: id in mid.rules ==> id in w'.rules)
    && (forall id :: id in mid.rules ==>
          w'.rules[id] == if mid.rules[id].rule.name == rule.name then RuleRow(mid.rules[id].enabled, rule) else mid.rules[id])
    && (forall id :: id in w'.rules && id !in mid.rules ==> mid.nextRule <= id && w'.rules[id] == RuleRow(true, rule))
  }

  lemma UpsertTakesIn(mid: World, rule: Rule)
    requires Filed(mid)
    ensures Filed(Upsert(mid, rule)) && TookIn(mid, rule, Upsert(mid, rule))
  {
    var w' := Upsert(mid, rule);
    if NameTaken(mid.rules, rule.name) {
      var id :| id in mid.rules && mid.rules[id].rule.name == rule.name;
      assert w'.rules[id].rule.name == rule.name;
    } else {
      assert w'.rules[mid.nextRule].rule.name == rule.name;
    }
  }

  /** A name of the file has its last rule of that name, also after one rule more. */
  lemma LastStaysLast(before: seq<Rule>, mid: World, rule: Rule, w': World, id: nat)
    requires TookIn(mid, rule, w') && id in w'.rules && (Names(before, w'.rules[id].rule.name) || w'.rules[id].rule.name == rule.name)
    requires forall i :: i in mid.rules && Names(before, mid.rules[i].rule.name) ==> LastOfName(before, mid.rules[i].rule)
    ensures LastOfName(before + [rule], w'.rules[id].rule)
  {
    LastOfNameOneMore(before, rule, w'.rules[id].rule);
  }

  lemma NamesStayTaken(mid: World, rule: Rule, w': World, name: string)
    requires TookIn(mid, rule, w') && NameTaken(mid.rules, name)
    ensures NameTaken(w'.rules, name)
  {
    var id :| id in mid.rules && mid.rules[id].rule.name == name;
    assert w'.rules[id].rule.name == name;
  }

  lemma OneMoreKept(w: World, before: seq<Rule>, mid: World, rule: Rule, rules: seq<Rule>, w': World)
    requires TookIn(mid, rule, w') && RulesKept(w, before, mid) && rules == before + [rule]
    ensures RulesKept(w, rules, w')
  {
    forall id | id in w.rules && !Names(rules, w.rules[id].rule.name) ensures w'.rules[id] == w.rules[id] {
      NamesOneMore(before, rule, w.rules[id].rule.name);
    }
  }

  lemma OneMoreNew(w: World, before: seq<Rule>, mid: World, rule: Rule, rules: seq<Rule>, w': World)
    requires TookIn(mid, rule, w') && RulesKept(w, before, mid) && NewRows(w, before, mid) && rules == before + [rule]
    ensures NewRows(w, rules, w')
  {
    forall id | id in w'.rules && id !in w.rules
      ensures w.nextRule <= id && w'.rules[id].enabled && Names(rules, w'.rules[id].rule.name)
    {
      NamesOneMore(before, rule, w'.rules[id].rule.name);
    }
  }

  lemma OneMoreHeld(before: seq<Rule>, mid: World, rule: Rule, rules: seq<Rule>, w': World)
    requires TookIn(mid, rule, w') && FileHeld(before, mid) && rules == before + [rule]
    ensures FileHeld(rules, w')
  {
    forall id | id in w'.rules && Names(rules, w'.rules[id].rule.name) ensures LastOfName(rules, w'.rules[id].rule) {
      NamesOneMore(before, rule, w'.rules[id].rule.name);
      LastStaysLast(before, mid, rule, w', id);
    }
    forall k | 0 <= k < |rules| ensures NameTaken(w'.rules, rules[k].name) {
      if k < |before| {
        assert rules[k] == before[k];
        NamesStayTaken(mid, rule, w', rules[k].name);
      }
    }
  }

  lemma {:induction false} ImportReadsBack(w: World, rules: seq<Rule>)
    requires Filed(w)
    ensures Filed(ImportStep(w, rules)) && ReadsBack(w, rules, ImportStep(w, rules))
  {
    if rules != [] {
      ImportReadsBack(w, Front(rules));
      assert rules == Front(rules) + [Last(rules)];
      UpsertTakesIn(ImportStep(w, Front(rules)), Last(rules));
      OneMoreKept(w, Front(rules), ImportStep(w, Front(rules)), Last(rules), rules, ImportStep(w, rules));
      OneMoreNew(w, Front(rules), ImportStep(w, Front(rules)), Last(rules), rules, ImportStep(w, rules));
      OneMoreHeld(Front(rules), ImportStep(w, Front(rules)), Last(rules), rules, ImportStep(w, rules));
    }
  }

  // ---------------------------------------------------------------- every run

  lemma {:induction false} RunsAreFiled(actions: seq<Action>)
    ensures Filed(Run(actions))
  {
    if actions != [] {
      RunsAreFiled(Front(actions));
      StepFiles(Run(Front(actions)), Last(actions));
    }
  }

  lemma StepFiles(w: World, action: Action)
    requires Filed(w)
    ensures Filed(Step(w, action))
  {
    match action
    case Check(rule, _, _, value, at, fault) =>
      CheckKeepsTable(w, CheckKey(action), Interval(rule), RuleStatus(rule, value), value, at, fault);
    case ImportRules(rules) => ImportReadsBack(w, rules);
    case CreateRule(rule, enabled) => CreateFiles(w, rule, enabled);
    case UpdateRule(id, rule, enabled, at) => UpdateFiles(w, id, rule, enabled, at);
    case _ =>
  }

  lemma CheckKeepsTable(w: World, key: Key, interval: int, status: Status, value: real, at: int, fault: Fault)
    ensures var w' := CheckSample(w, key, interval, status, value, at, fault); w'.rules == w.rules && w'.nextRule == w.nextRule
  {
  }

  lemma CreateFiles(w: World, rule: Rule, enabled: bool)
    requires Filed(w)
    ensures Filed(CreateRuleStep(w, rule, enabled))
  {
  }

  lemma UpdateFiles(w: World, id: nat, rule: Rule, enabled: bool, now: int)
    requires Filed(w)
    ensures Filed(UpdateRuleStep(w, id, rule, enabled, now))
  {
    if id in w.rules && !NameTaken(w.rules - {id}, rule.name) {
      UpdateRuleKeepsNames(w, id, rule, enabled);
    }
  }

  /** An action that may write the row of a rule. */
  predicate Edits(action: Action, id: nat) {
    match action
    case UpdateRule(edited, _, _, _) => edited == id
    case DeleteRule(edited, _) => edited == id
    case ImportRules(_) => true
    case _ => false
  }

  lemma StepKeepsRow(w: World, action: Action, id: nat)
    requires Filed(w) && id in w.rules && !Edits(action, id)
    ensures id in Step(w, action).rules && Step(w, action).rules[id] == w.rules[id]
  {
    if action.Check? {
      CheckKeepsTable(w, CheckKey(action), Interval(action.rule), RuleStatus(action.rule, action.value), action.value, action.at,
                      action.fault);
    }
  }

  /** The row of a rule in a table, if it is there. */
  function RowOf(rules: map<nat, RuleRow>, id: nat): Option<RuleRow> {
    if id in rules then Some(rules[id]) else None
  }

  lemma {:induction false} RowStays(w: World, more: seq<Action>, id: nat)
    requires Filed(w) && id in w.rules && forall k :: 0 <= k < |more| ==> !Edits(more[k], id)
    ensures Filed(RunFrom(w, more)) && RowOf(RunFrom(w, more).rules, id) == Some(w.rules[id])
  {
    if more != [] {
      assert more[|more| - 1] == Last(more) && forall k :: 0 <= k < |Front(more)| ==> Front(more)[k] == more[k];
      RowStays(w, Front(more), id);
      StepFiles(RunFrom(w, Front(more)), Last(more));
      StepKeepsRow(RunFrom(w, Front(more)), Last(more), id);
    }
  }

  lemma StepRowStays(before: seq<Action>, action: Action, more: seq<Action>, id: nat, row: RuleRow)
    requires RowOf(Step(Run(before), action).rules, id) == Some(row) && forall k :: 0 <= k < |more| ==> !Edits(more[k], id)
    ensures RowOf(Run(before + [action] + more).rules, id) == Some(row)
  {
    RunOneMore(before, action);
    RunsAreFiled(before + [action]);
    RunContinues(before + [action], more);
    RowStays(Run(before + [action]), more, id);
  }

  /** A rule reads as its last successful update wrote it, whatever is checked, resolved or edited
      besides. */
  lemma UpdateIsKept(before: seq<Action>, id: nat, rule: Rule, enabled: bool, now: int, more: seq<Action>)
    requires id in Run(before).rules && !NameTaken(Run(before).rules - {id}, rule.name)
    requires forall k :: 0 <= k < |more| ==> !Edits(more[k], id)
    ensures RowOf(Run(before + [Action.UpdateRule(id, rule, enabled, now)] + more).rules, id) == Some(RuleRow(enabled, rule))
  {
    UpdatedReadsBack(Run(before), id, rule, enabled, now);
    StepRowStays(before, Action.UpdateRule(id, rule, enabled, now), more, id, RuleRow(enabled, rule));
  }

  /** So does a rule that was created, under the id it was given. */
  lemma CreationIsKept(before: seq<Action>, rule: Rule, enabled: bool, more: seq<Action>)
    requires !NameTaken(Run(before).rules, rule.name)
    requires forall k :: 0 <= k < |more| ==> !Edits(more[k], Run(before).nextRule)
    ensures RowOf(Run(before + [Action.CreateRule(rule, enabled)] + more).rules, Run(before).nextRule) == Some(RuleRow(enabled, rule))
  {
    CreatedReadsBack(Run(before), rule, enabled);
    StepRowStays(before, Action.CreateRule(rule, enabled), more, Run(before).nextRule, RuleRow(enabled, rule));
  }
}
