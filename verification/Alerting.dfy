/** The alert tables and the evaluator's memory as one value, and every operation on them as a
    step. A step is one evaluator check, one store transaction or an evaluator restart. */
module Alerting {
  import opened Basics

  datatype Status = Normal | Warning | Critical

  /** The metrics a rule is classified by. Any other metric, a custom one too, is `Measured`. */
  datatype Metric =
    | Ping | Endpoint | Certificate
    | KubeNode | KubeWorkload | KubePending | KubeRestarts
    | Measured(name: string)

  datatype Op = Equal | NotEqual | Above | Below | AtLeast | AtMost | Inactive | Active | UnknownOp

  /** `certWarn` and `certCritical` are the days left at which an endpoint's certificate alerts, both
      zero when it has none to watch. The rest says what a rule watches: hosts, and on them a disk or
      a service, or an endpoint. */
  datatype Rule = Rule(
    name: string, metric: Metric, op: Op, warn: int, critical: int,
    triggerInterval: nat, expectedCode: int, certWarn: int, certCritical: int,
    servers: seq<string>, endpoint: string, disk: string, service: string)

  // ---------------------------------------------------------------- classification

  function GetAlertType(rule: Rule, value: real): Status {
    var critical, warn := rule.critical as real, rule.warn as real;
    match rule.op
    case Equal => if value == critical then Critical else if value == warn then Warning else Normal
    case NotEqual => if value != critical then Critical else if value != warn then Warning else Normal
    case Above => if value > critical then Critical else if value > warn then Warning else Normal
    case Below => if value < critical then Critical else if value < warn then Warning else Normal
    case AtLeast => if value >= critical then Critical else if value >= warn then Warning else Normal
    case AtMost => if value <= critical then Critical else if value <= warn then Warning else Normal
    case Inactive => if value == 0.0 then Critical else Normal
    case Active => if value == 1.0 then Critical else Normal
    case UnknownOp => Normal
  }

  /** Conversion of a float to an integer, which cuts towards zero. */
  function Truncated(value: real): int {
    if value >= 0.0 then value.Floor else -((-value).Floor)
  }

  function ExpectedCode(rule: Rule): int {
    if rule.expectedCode == 0 then 200 else rule.expectedCode
  }

  function RuleStatus(rule: Rule, value: real): Status {
    match rule.metric
    case Endpoint => if Truncated(value) != ExpectedCode(rule) then Critical else Normal
    case Ping => if value > rule.triggerInterval as real then Critical else Normal
    case KubeNode => if value > 0.0 then Critical else Normal
    case KubeWorkload => if value > 0.0 then Critical else Normal
    case KubePending => if value > 0.0 then Critical else Normal
    case _ => GetAlertType(rule, value)
  }

  function Interval(rule: Rule): int {
    rule.triggerInterval * SECOND
  }

  /** An endpoint rule watches its certificate too, as a rule of its own that alerts on days left
      below its levels and waits for no interval. */
  function CertificateRule(rule: Rule): Option<Rule> {
    if !rule.metric.Endpoint? || (rule.certWarn == 0 && rule.certCritical == 0) then None
    else Some(rule.(metric := Certificate, op := Below, warn := rule.certWarn, critical := rule.certCritical, triggerInterval := 0))
  }

  // ---------------------------------------------------------------- what a rule looks at

  /** In a rule's servers, every registered host. */
  const ALL_HOSTS := "*"

  predicate IsKube(metric: Metric) {
    metric.KubeNode? || metric.KubeWorkload? || metric.KubePending? || metric.KubeRestarts?
  }

  function RuleTarget(rule: Rule): string {
    if rule.metric == Measured("disks") || rule.metric == Measured("disk_forecast") then rule.disk
    else if rule.metric == Measured("services") then rule.service
    else if rule.metric.Endpoint? || rule.metric.Certificate? then rule.endpoint
    else ""
  }

  /** The hosts a round checks a rule on. Endpoint and Kubernetes rules are on none, written as the
      empty host. */
  function RuleHosts(rule: Rule, registered: seq<string>): seq<string> {
    if rule.metric.Endpoint? || IsKube(rule.metric) then [""]
    else if ALL_HOSTS in rule.servers then registered
    else rule.servers
  }

  // ---------------------------------------------------------------- tables and memory

  /** What an alert is about. The evaluator's maps and the open alerts are per key. */
  datatype Key = Key(host: string, rule: string, metric: Metric, target: string)

  datatype Alert = Alert(
    key: Key, severity: Status, value: real,
    startedAt: int, updatedAt: int, resolvedAt: Option<int>)

  predicate IsOpen(alert: Alert) {
    alert.resolvedAt.None?
  }

  /** A change of status the evaluator has seen begin. */
  datatype Pending = Pending(status: Status, since: int)

  datatype Kind = Opened | Changed | Resolved

  /** An alert event passed on to the notification channels. */
  datatype Notice = Notice(alert: nat, key: Key, kind: Kind, severity: Status, value: real, at: int)

  datatype RuleRow = RuleRow(enabled: bool, rule: Rule)

  /** The rule and alert tables, the evaluator's maps and the notices sent so far.
      An alert's id is its position in the table. */
  datatype World = World(
    rules: map<nat, RuleRow>, nextRule: nat, alerts: seq<Alert>,
    pending: map<Key, Pending>, checked: map<Key, int>, notices: seq<Notice>)

  const EMPTY := World(map[], 0, [], map[], map[], [])

  /** A store call that fails during a check: reading the open alert, or writing it. A write whose
      answer is lost has been done, and the evaluator takes it for failed. */
  datatype Fault = NoFault | ReadFault | WriteFault | AnswerLost

  /** Whether a write that is tried gets done. */
  predicate GetsWritten(fault: Fault) {
    fault.NoFault? || fault.AnswerLost?
  }

  // ---------------------------------------------------------------- the evaluator

  /** An open alert of a key, or none when there is none. */
  ghost predicate Finds(alerts: seq<Alert>, key: Key, id: Option<nat>) {
    match id
    case Some(i) => i < |alerts| && IsOpen(alerts[i]) && alerts[i].key == key
    case None => forall i :: 0 <= i < |alerts| && IsOpen(alerts[i]) ==> alerts[i].key != key
  }

  /** The unresolved alert of a key, by its id. */
  function OpenAlert(alerts: seq<Alert>, key: Key): (id: Option<nat>)
    ensures Finds(alerts, key, id)
  {
    if |alerts| == 0 then None
    else if IsOpen(Last(alerts)) && Last(alerts).key == key then Some(|alerts| - 1)
    else OpenAlert(Front(alerts), key)
  }

  function SetPending(w: World, key: Key, status: Status, at: int): World {
    w.(pending := w.pending[key := Pending(status, at)])
  }

  function DropPending(w: World, key: Key): World {
    w.(pending := w.pending - {key})
  }

  function Notify(w: World, notice: Notice): World {
    w.(notices := w.notices + [notice])
  }

  function ResolvedAlert(alert: Alert, value: real, at: int): Alert {
    alert.(value := value, updatedAt := at, resolvedAt := Some(at))
  }

  function UpdateOpen(w: World, interval: int, key: Key, id: nat, status: Status, value: real, at: int, fault: Fault): World
    requires id < |w.alerts|
  {
    if status.Normal? then
      if key !in w.pending || !w.pending[key].status.Normal? then SetPending(w, key, Normal, at)
      else if at - w.pending[key].since < interval then w
      else if fault.WriteFault? then w
      else
        var resolved := w.(alerts := w.alerts[id := ResolvedAlert(w.alerts[id], value, at)]);
        if fault.AnswerLost? then resolved
        else Notify(DropPending(resolved, key), Notice(id, key, Resolved, status, value, at))
    else
      var w1 := DropPending(w, key);
      if status == w.alerts[id].severity then w1
      else if fault.WriteFault? then w1
      else
        var changed := w1.alerts[id].(severity := status, value := value, updatedAt := at);
        var written := w1.(alerts := w1.alerts[id := changed]);
        if fault.AnswerLost? then written
        else Notify(written, Notice(id, key, Changed, status, value, at))
  }

  function OpenIfBreached(w: World, interval: int, key: Key, status: Status, value: real, at: int, fault: Fault): World {
    if status.Normal? then DropPending(w, key)
    else if key !in w.pending || w.pending[key].status.Normal? then SetPending(w, key, status, at)
    else if at - w.pending[key].since < interval then w
    else if fault.WriteFault? then w
    else
      var created := w.(alerts := w.alerts + [Alert(key, status, value, at, at, None)]);
      if fault.AnswerLost? then created
      else Notify(DropPending(created, key), Notice(|w.alerts|, key, Opened, status, value, at))
  }

  function ActOn(w: World, open: Option<nat>, key: Key, interval: int, status: Status, value: real, at: int, fault: Fault): World
    requires Finds(w.alerts, key, open)
  {
    match open
    case Some(id) => UpdateOpen(w, interval, key, id, status, value, at, fault)
    case None => OpenIfBreached(w, interval, key, status, value, at, fault)
  }

  /** A sample not newer than the last one of its key, which changes nothing. */
  predicate Late(w: World, key: Key, at: int) {
    key in w.checked && at <= w.checked[key]
  }

  /** One sample of a key, already classified. */
  function CheckSample(w: World, key: Key, interval: int, status: Status, value: real, at: int, fault: Fault): World {
    if Late(w, key, at) then w
    else
      var w1 := w.(checked := w.checked[key := at]);
      if fault.ReadFault? then w1
      else ActOn(w1, OpenAlert(w.alerts, key), key, interval, status, value, at, fault)
  }

  function CheckStep(w: World, rule: Rule, host: string, target: string, value: real, at: int, fault: Fault): World {
    CheckSample(w, Key(host, rule.name, rule.metric, target), Interval(rule), RuleStatus(rule, value), value, at, fault)
  }

  // ---------------------------------------------------------------- kubernetes targets that are gone

  /** Resolves one open alert of a kubernetes rule whose node or workload is gone. Nobody is told when
      the store's answer was not `heard`. */
  function GoneStep(w: World, rule: Rule, id: nat, at: int, heard: bool): World {
    if id < |w.alerts| && IsOpen(w.alerts[id]) && w.alerts[id].key.rule == rule.name && w.alerts[id].key.metric == rule.metric then
      var resolved := w.(alerts := w.alerts[id := ResolvedAlert(w.alerts[id], 0.0, at)]);
      if heard then Notify(resolved, Notice(id, w.alerts[id].key, Resolved, Normal, 0.0, at)) else resolved
    else w
  }

  /** The keys of a kubernetes rule's targets that are not in the cluster any more. */
  predicate Gone(rule: Rule, present: set<string>, key: Key) {
    key.host == "" && key.rule == rule.name && key.metric == rule.metric && key.target !in present
  }

  function Forget<V>(m: map<Key, V>, rule: Rule, present: set<string>): map<Key, V> {
    map key | key in m && !Gone(rule, present, key) :: m[key]
  }

  function ForgetStep(w: World, rule: Rule, present: set<string>): World {
    w.(pending := Forget(w.pending, rule, present), checked := Forget(w.checked, rule, present))
  }

  // ---------------------------------------------------------------- rule edits on the dashboard

  predicate NameTaken(rules: map<nat, RuleRow>, name: string) {
    exists id :: id in rules && rules[id].rule.name == name
  }

  function CreateRuleStep(w: World, rule: Rule, enabled: bool): World {
    if NameTaken(w.rules, rule.name) then w
    else w.(rules := w.rules[w.nextRule := RuleRow(enabled, rule)], nextRule := w.nextRule + 1)
  }

  function Rename(alert: Alert, from: string, to: string): Alert {
    if IsOpen(alert) && alert.key.rule == from then alert.(key := alert.key.(rule := to)) else alert
  }

  function RenameAlerts(alerts: seq<Alert>, from: string, to: string): seq<Alert> {
    seq(|alerts|, i requires 0 <= i < |alerts| => Rename(alerts[i], from, to))
  }

  /** The dashboard's resolution of a rule's open alerts, which sends no notice. */
  function ResolveRuleAlerts(alerts: seq<Alert>, name: string, now: int): seq<Alert> {
    seq(|alerts|, i requires 0 <= i < |alerts| =>
      if IsOpen(alerts[i]) && alerts[i].key.rule == name
      then alerts[i].(updatedAt := now, resolvedAt := Some(now)) else alerts[i])
  }

  function UpdateRuleStep(w: World, id: nat, rule: Rule, enabled: bool, now: int): World {
    if id !in w.rules then w
    else if NameTaken(w.rules - {id}, rule.name) then w
    else
      var renamed := RenameAlerts(w.alerts, w.rules[id].rule.name, rule.name);
      var alerts := if enabled then renamed else ResolveRuleAlerts(renamed, rule.name, now);
      w.(rules := w.rules[id := RuleRow(enabled, rule)], alerts := alerts)
  }

  function DeleteRuleStep(w: World, id: nat, now: int): World {
    if id !in w.rules then w
    else w.(rules := w.rules - {id}, alerts := ResolveRuleAlerts(w.alerts, w.rules[id].rule.name, now))
  }

  /** Adds a rule, or replaces the one with its name without switching it on or off. */
  function Upsert(w: World, rule: Rule): World {
    if NameTaken(w.rules, rule.name) then
      w.(rules := map id | id in w.rules ::
        if w.rules[id].rule.name == rule.name then RuleRow(w.rules[id].enabled, rule) else w.rules[id])
    else CreateRuleStep(w, rule, true)
  }

  function ImportStep(w: World, rules: seq<Rule>): World {
    if rules == [] then w else Upsert(ImportStep(w, Front(rules)), Last(rules))
  }

  // ---------------------------------------------------------------- runs

  datatype Action =
    | Check(rule: Rule, host: string, target: string, value: real, at: int, fault: Fault)
    | ResolveGone(rule: Rule, id: nat, at: int, heard: bool)
    | ForgetGone(rule: Rule, present: set<string>)
    | Restart
    | CreateRule(rule: Rule, enabled: bool)
    | UpdateRule(ruleId: nat, rule: Rule, enabled: bool, at: int)
    | DeleteRule(ruleId: nat, at: int)
    | ImportRules(rules: seq<Rule>)

  function CheckAction(w: World, action: Action): World
    requires action.Check?
  {
    CheckStep(w, action.rule, action.host, action.target, action.value, action.at, action.fault)
  }

  function Step(w: World, action: Action): World {
    match action
    case Check(_, _, _, _, _, _) => CheckAction(w, action)
    case ResolveGone(rule, id, at, heard) => GoneStep(w, rule, id, at, heard)
    case ForgetGone(rule, present) => ForgetStep(w, rule, present)
    case Restart => w.(pending := map[], checked := map[])
    case CreateRule(rule, enabled) => CreateRuleStep(w, rule, enabled)
    case UpdateRule(id, rule, enabled, at) => UpdateRuleStep(w, id, rule, enabled, at)
    case DeleteRule(id, at) => DeleteRuleStep(w, id, at)
    case ImportRules(rules) => ImportStep(w, rules)
  }

  /** Everything that can happen, from empty tables on. */
  function Run(actions: seq<Action>): World {
    if actions == [] then EMPTY else Step(Run(Front(actions)), Last(actions))
  }

  lemma RunOneMore(actions: seq<Action>, action: Action)
    ensures Run(actions + [action]) == Step(Run(actions), action)
  {
    assert Front(actions + [action]) == actions;
  }

  function RunFrom(w: World, actions: seq<Action>): World {
    if actions == [] then w else Step(RunFrom(w, Front(actions)), Last(actions))
  }

  /** What happens from a state that a run reached is the rest of a longer run. */
  lemma {:induction false} RunContinues(before: seq<Action>, actions: seq<Action>)
    ensures Run(before + actions) == RunFrom(Run(before), actions)
  {
    if actions == [] {
      assert before + actions == before;
    } else {
      RunContinues(before, Front(actions));
      FrontOfSum(before, actions);
    }
  }

  lemma RunFromOneMore(w: World, actions: seq<Action>, action: Action)
    ensures RunFrom(w, actions + [action]) == Step(RunFrom(w, actions), action)
  {
    assert Front(actions + [action]) == actions;
  }

  function CheckKey(action: Action): Key
    requires action.Check?
  {
    Key(action.host, action.rule.name, action.rule.metric, action.target)
  }
}
