/** The alert table and the notices tell the same: what a check or a sweep sends is what it wrote. */
module AlertRecords {
  import opened Basics
  import opened Alerting
  import opened AlertRules
  import opened AlertHistory
  import opened Evaluation

  /** A notice and the row it is about. */
  predicate Matches(notice: Notice, alert: Alert) {
    && notice.key == alert.key && notice.value == alert.value && notice.at == alert.updatedAt
    && match notice.kind
       case Opened => IsOpen(alert) && alert.startedAt == notice.at && alert.severity == notice.severity
       case Changed => IsOpen(alert) && alert.severity == notice.severity
       case Resolved => alert.resolvedAt == Some(notice.at) && notice.severity == Normal
  }

  /** What a step told: at most one notice, about the one row it wrote. An opening is about a new row, and
      anything else about a row that was open, whose start stays. */
  ghost predicate TellsWhatItWrote(w: World, w': World, value: real, at: int) {
    if w'.notices == w.notices then w'.alerts == w.alerts
    else
      && |w'.notices| == |w.notices| + 1 && Front(w'.notices) == w.notices
      && var n := Last(w'.notices);
         && n.alert < |w'.alerts| && Matches(n, w'.alerts[n.alert]) && n.value == value && n.at == at
         && (n.kind.Opened? ==> n.alert == |w.alerts| && |w'.alerts| == |w.alerts| + 1)
         && (!n.kind.Opened? ==>
               && |w'.alerts| == |w.alerts| && IsOpen(w.alerts[n.alert])
               && w'.alerts[n.alert].startedAt == w.alerts[n.alert].startedAt && w'.alerts[n.alert].key == w.alerts[n.alert].key)
         && (n.kind.Resolved? ==> w'.alerts[n.alert].severity == w.alerts[n.alert].severity)
         && forall i :: 0 <= i < |w.alerts| && i != n.alert ==> w'.alerts[i] == w.alerts[i]
  }

  lemma ActTellsWhatItWrote(w: World, open: Option<nat>, key: Key, interval: int, status: Status, value: real, at: int, fault: Fault)
    requires Finds(w.alerts, key, open) && !fault.AnswerLost?
    ensures TellsWhatItWrote(w, ActOn(w, open, key, interval, status, value, at, fault), value, at)
  {
    var w' := ActOn(w, open, key, interval, status, value, at, fault);
    if |w'.notices| > |w.notices| {
      assert Front(w'.notices) == w.notices;
      assert w'.notices != w.notices;
    }
  }

  /** A check whose answers are heard sends exactly what it writes. */
  lemma CheckTellsWhatItWrote(w: World, key: Key, interval: int, status: Status, value: real, at: int, fault: Fault)
    requires !fault.AnswerLost?
    ensures TellsWhatItWrote(w, CheckSample(w, key, interval, status, value, at, fault), value, at)
  {
    ActTellsWhatItWrote(w.(checked := w.checked[key := at]), OpenAlert(w.alerts, key), key, interval, status, value, at, fault);
  }

  lemma GoneTellsWhatItWrote(w: World, rule: Rule, id: nat, at: int)
    ensures TellsWhatItWrote(w, GoneStep(w, rule, id, at, true), 0.0, at)
  {
    var w' := GoneStep(w, rule, id, at, true);
    if |w'.notices| > |w.notices| {
      assert Front(w'.notices) == w.notices;
      assert w'.notices != w.notices;
    }
  }

  // ---------------------------------------------------------------- every run

  /** The last notice about an alert. */
  function LastAbout(notices: seq<Notice>, alert: nat): Option<Notice> {
    if notices == [] then None
    else if Last(notices).alert == alert then Some(Last(notices))
    else LastAbout(Front(notices), alert)
  }

  /** Every alert reads as the last notice about it said. */
  ghost predicate AllTold(w: World) {
    && (forall i :: 0 <= i < |w.alerts| ==> LastAbout(w.notices, i).Some? && Matches(LastAbout(w.notices, i).value, w.alerts[i]))
    && (forall k :: 0 <= k < |w.notices| ==> w.notices[k].alert < |w.alerts|)
  }

  /** Steps that tell what they do: not a write whose answer is lost, and not the dashboard's edits of
      alerts. */
  predicate TellsAll(action: Action) {
    match action
    case Check(_, _, _, _, _, fault) => !fault.AnswerLost?
    case ResolveGone(_, _, _, heard) => heard
    case UpdateRule(_, _, _, _) => false
    case DeleteRule(_, _) => false
    case _ => true
  }

  lemma TellingKeeps(w: World, w': World, value: real, at: int)
    requires AllTold(w) && TellsWhatItWrote(w, w', value, at)
    ensures AllTold(w')
  {
    if w'.notices != w.notices {
      var n := Last(w'.notices);
      assert forall k :: 0 <= k < |w.notices| ==> w'.notices[k] == Front(w'.notices)[k] == w.notices[k];
      forall i | 0 <= i < |w'.alerts| ensures LastAbout(w'.notices, i).Some? && Matches(LastAbout(w'.notices, i).value, w'.alerts[i]) {
        if i != n.alert {
          assert LastAbout(w'.notices, i) == LastAbout(w.notices, i) && w'.alerts[i] == w.alerts[i];
        }
      }
    }
  }

  lemma StepKeepsTold(w: World, action: Action)
    requires AllTold(w) && TellsAll(action)
    ensures AllTold(Step(w, action))
  {
    match action
    case Check(rule, _, _, value, at, fault) =>
      CheckTellsWhatItWrote(w, CheckKey(action), Interval(rule), RuleStatus(rule, value), value, at, fault);
      TellingKeeps(w, Step(w, action), value, at);
    case ResolveGone(rule, id, at, heard) =>
      GoneTellsWhatItWrote(w, rule, id, at);
      TellingKeeps(w, Step(w, action), 0.0, at);
    case ImportRules(rules) => ImportKeepsAlerts(w, rules);
    case _ =>
  }

  lemma {:induction false} ImportKeepsAlerts(w: World, rules: seq<Rule>)
    ensures ImportStep(w, rules).alerts == w.alerts && ImportStep(w, rules).notices == w.notices
  {
    if rules != [] {
      ImportKeepsAlerts(w, Front(rules));
    }
  }

  /** Over every run whose answers are heard and whose alerts nobody edits on the dashboard, each alert in
      the table reads as the last notice about it said: its value, its severity, when it changed, and
      whether it is resolved. */
  lemma {:induction false} TableReadsAsTold(actions: seq<Action>)
    requires forall k :: 0 <= k < |actions| ==> TellsAll(actions[k])
    ensures AllTold(Run(actions))
  {
    if actions != [] {
      assert actions[|actions| - 1] == Last(actions) && forall k :: 0 <= k < |Front(actions)| ==> Front(actions)[k] == actions[k];
      TableReadsAsTold(Front(actions));
      StepKeepsTold(Run(Front(actions)), Last(actions));
    }
  }

  // ---------------------------------------------------------------- sweeps

  /** One of the alerts of a list is of the key, and gone. */
  ghost predicate ListsGone(alerts: seq<Alert>, rule: Rule, present: set<string>, ids: seq<nat>, key: Key)
    requires InTable(alerts, ids)
  {
    exists k :: 0 <= k < |ids| && IsGoneAlert(alerts[ids[k]], rule, present) && alerts[ids[k]].key == key
  }

  lemma ListsGoneOneMore(alerts: seq<Alert>, rule: Rule, present: set<string>, ids: seq<nat>, key: Key)
    requires ids != [] && InTable(alerts, ids) && UniqueOpen(alerts) && Distinct(ids)
    ensures ListsGone(alerts, rule, present, ids, key)
       <==> ListsGone(alerts, rule, present, Front(ids), key)
            || (IsGoneAlert(alerts[Last(ids)], rule, present) && alerts[Last(ids)].key == key)
    ensures IsGoneAlert(alerts[Last(ids)], rule, present) && alerts[Last(ids)].key == key ==>
              !ListsGone(alerts, rule, present, Front(ids), key)
  {
    assert Last(ids) == ids[|ids| - 1] && forall k :: 0 <= k < |Front(ids)| ==> Front(ids)[k] == ids[k];
  }

  lemma GoneStepTells(w: World, rule: Rule, id: nat, at: int, key: Key)
    requires id < |w.alerts| && IsOpen(w.alerts[id]) && Watches(rule, w.alerts[id].key)
    ensures Sent(GoneStep(w, rule, id, at, true).notices, key)
         == Sent(w.notices, key) + if w.alerts[id].key == key then [Message(Resolved, Normal, at)] else []
  {
    assert Front(GoneStep(w, rule, id, at, true).notices) == w.notices;
  }

  lemma NextIsUntouched(w: World, rule: Rule, present: set<string>, at: int, ids: seq<nat>)
    requires ids != [] && InTable(w.alerts, ids) && Distinct(ids)
    ensures var before := GoneList(w, rule, present, at, Front(ids));
            Last(ids) < |before.alerts| && before.alerts[Last(ids)] == w.alerts[Last(ids)]
  {
    DistinctFront(ids);
    GoneListResolves(w, rule, present, at, Front(ids));
  }

  /** A sweep tells about each key with a gone alert that it is resolved, once, and nothing about any
      other key. */
  lemma {:induction false} SweepTellsGone(w: World, rule: Rule, present: set<string>, at: int, ids: seq<nat>, key: Key)
    requires InTable(w.alerts, ids) && Distinct(ids) && UniqueOpen(w.alerts)
    ensures Sent(GoneList(w, rule, present, at, ids).notices, key)
         == Sent(w.notices, key) + if ListsGone(w.alerts, rule, present, ids, key) then [Message(Resolved, Normal, at)] else []
  {
    if ids != [] {
      DistinctFront(ids);
      SweepTellsGone(w, rule, present, at, Front(ids), key);
      ListsGoneOneMore(w.alerts, rule, present, ids, key);
      NextIsUntouched(w, rule, present, at, ids);
      if IsGoneAlert(w.alerts[Last(ids)], rule, present) {
        GoneStepTells(GoneList(w, rule, present, at, Front(ids)), rule, Last(ids), at, key);
      }
    }
  }
}
