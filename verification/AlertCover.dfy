/** A stronger cover of open alerts. An alert is only looked at again when a rule of its name that is
    enabled still looks at its whole key: the host, the metric and the target. An edit can give a rule
    other hosts, another metric or another target under the same name. */
module AlertCover {
  import opened Basics
  import opened Alerting
  import opened AlertRules

  /** Whether a rule looks at a host. An open alert's host is registered, since removing a host removes
      its alerts. */
  predicate OnHost(rule: Rule, host: string) {
    if rule.metric.Endpoint? || IsKube(rule.metric) then host == ""
    else if ALL_HOSTS in rule.servers then host != ""
    else host in rule.servers
  }

  /** Whether a round over a rule looks at a key: at its own target on its hosts, and at its certificate.
      A Kubernetes rule looks at every target, since those that are not in the cluster resolve. */
  predicate OnKey(rule: Rule, key: Key) {
    || (key.metric == rule.metric && OnHost(rule, key.host) && (IsKube(rule.metric) || key.target == RuleTarget(rule)))
    || (key.metric.Certificate? && CertificateRule(rule).Some? && key.host == "" && key.target == rule.endpoint)
  }

  function KeysOn(rule: Rule, hosts: seq<string>): seq<Key> {
    if hosts == [] then [] else KeysOn(rule, Front(hosts)) + [Key(Last(hosts), rule.name, rule.metric, RuleTarget(rule))]
  }

  /** The keys a round looks up for a rule that is not a Kubernetes one, once there is data. */
  function RoundKeys(rule: Rule, registered: seq<string>): seq<Key> {
    KeysOn(rule, RuleHosts(rule, registered))
    + match CertificateRule(rule) { case Some(c) => [Key("", c.name, c.metric, RuleTarget(c))] case None => [] }
  }

  lemma {:induction false} KeysOnAre(rule: Rule, hosts: seq<string>, key: Key)
    ensures key in KeysOn(rule, hosts) <==>
              key.host in hosts && key == Key(key.host, rule.name, rule.metric, RuleTarget(rule))
  {
    if hosts != [] {
      KeysOnAre(rule, Front(hosts), key);
      InFrontOrLast(hosts, key.host);
    }
  }

  /** A round looks up exactly the keys the rule is on. */
  lemma RoundLooksAt(rule: Rule, registered: seq<string>, key: Key)
    requires !IsKube(rule.metric) && "" !in registered && (key.host == "" || key.host in registered)
    ensures key in RoundKeys(rule, registered) <==> key.rule == rule.name && OnKey(rule, key)
  {
    KeysOnAre(rule, RuleHosts(rule, registered), key);
  }

  ghost predicate Watched(rules: map<nat, RuleRow>, key: Key) {
    exists id :: id in rules && rules[id].enabled && rules[id].rule.name == key.rule && OnKey(rules[id].rule, key)
  }

  /** Every open alert is watched. */
  ghost predicate AllWatched(w: World) {
    forall i :: 0 <= i < |w.alerts| && IsOpen(w.alerts[i]) ==> Watched(w.rules, w.alerts[i].key)
  }

  /** A rule takes the place of the one a name has: it is on every key that open alerts of the name
      have. */
  ghost predicate TakesOver(w: World, name: string, rule: Rule) {
    forall i :: 0 <= i < |w.alerts| && IsOpen(w.alerts[i]) && w.alerts[i].key.rule == name ==> OnKey(rule, w.alerts[i].key)
  }

  // ---------------------------------------------------------------- which edits keep it

  lemma CheckKeepsWatchedIff(w: World, key: Key, interval: int, status: Status, value: real, at: int, fault: Fault)
    requires AllWatched(w)
    ensures AllWatched(CheckSample(w, key, interval, status, value, at, fault))
       <==> Watched(w.rules, key) || !Opens(w, key, interval, status, at, fault)
  {
    CheckExtends(w, key, interval, status, value, at, fault);
    var w' := CheckSample(w, key, interval, status, value, at, fault);
    if Opens(w, key, interval, status, at, fault) {
      assert IsOpen(w'.alerts[|w'.alerts| - 1]) && w'.alerts[|w'.alerts| - 1].key == key;
    }
  }

  /** An alert of another rule keeps its watcher. */
  lemma OtherWatcher(w: World, rules: map<nat, RuleRow>, i: nat, id: nat)
    requires AllWatched(w) && i < |w.alerts| && IsOpen(w.alerts[i])
    requires id in w.rules && w.rules[id].rule.name != w.alerts[i].key.rule
    requires forall other :: other in w.rules && other != id ==> other in rules && rules[other] == w.rules[other]
    ensures Watched(rules, w.alerts[i].key)
  {
    var owner :| owner in w.rules && w.rules[owner].enabled && w.rules[owner].rule.name == w.alerts[i].key.rule
                 && OnKey(w.rules[owner].rule, w.alerts[i].key);
    assert owner in rules && rules[owner] == w.rules[owner];
  }

  /** Updating a rule keeps every open alert watched exactly when it is disabled, which resolves its
      alerts, or the new rule is on the keys its open alerts have. */
  lemma UpdateKeepsWatchedIff(w: World, id: nat, rule: Rule, enabled: bool, now: int)
    requires Consistent(w) && AllWatched(w) && id in w.rules && !NameTaken(w.rules - {id}, rule.name)
    ensures AllWatched(UpdateRuleStep(w, id, rule, enabled, now)) <==> !enabled || TakesOver(w, w.rules[id].rule.name, rule)
  {
    var w', name := UpdateRuleStep(w, id, rule, enabled, now), w.rules[id].rule.name;
    UpdateRuleKeepsNames(w, id, rule, enabled);
    if name != rule.name {
      RenameMeetsNoOpenAlert(w, id, rule.name);
    }
    forall i | 0 <= i < |w.alerts| && IsOpen(w'.alerts[i])
      ensures IsOpen(w.alerts[i])
      ensures Watched(w'.rules, w'.alerts[i].key)
         <==> (w.alerts[i].key.rule == name ==> enabled && OnKey(rule, w.alerts[i].key))
    {
      if w.alerts[i].key.rule == name {
        assert w'.rules[id] == RuleRow(enabled, rule) && w'.alerts[i].key == w.alerts[i].key.(rule := rule.name);
        assert OnKey(rule, w'.alerts[i].key) <==> OnKey(rule, w.alerts[i].key);
      } else {
        OtherWatcher(w, w'.rules, i, id);
      }
    }
    assert enabled ==> forall i :: 0 <= i < |w.alerts| && IsOpen(w.alerts[i]) ==> IsOpen(w'.alerts[i]);
  }

  lemma DeleteKeepsWatched(w: World, id: nat, now: int)
    requires AllWatched(w)
    ensures AllWatched(DeleteRuleStep(w, id, now))
  {
    if id in w.rules {
      var w' := DeleteRuleStep(w, id, now);
      forall i | 0 <= i < |w'.alerts| && IsOpen(w'.alerts[i]) ensures Watched(w'.rules, w'.alerts[i].key) {
        OtherWatcher(w, w'.rules, i, id);
      }
    }
  }

  lemma CreateKeepsWatched(w: World, rule: Rule, enabled: bool)
    requires Consistent(w) && AllWatched(w)
    ensures AllWatched(CreateRuleStep(w, rule, enabled))
  {
    var w' := CreateRuleStep(w, rule, enabled);
    forall i | 0 <= i < |w.alerts| && IsOpen(w.alerts[i]) ensures Watched(w'.rules, w.alerts[i].key) {
      var owner :| owner in w.rules && w.rules[owner].enabled && w.rules[owner].rule.name == w.alerts[i].key.rule
                   && OnKey(w.rules[owner].rule, w.alerts[i].key);
      assert owner in w'.rules && w'.rules[owner] == w.rules[owner];
    }
  }

  // ---------------------------------------------------------------- imports

  /** The rule an import leaves under a name, if it has one: the last of that name. */
  function Imported(rules: seq<Rule>, name: string): Option<Rule> {
    if rules == [] then None
    else if Last(rules).name == name then Some(Last(rules))
    else Imported(Front(rules), name)
  }

  /** What an import makes of a name: it stays enabled or not, and has the last rule of that name. */
  ghost predicate ImportedInto(w: World, rules: seq<Rule>, w': World) {
    && w'.alerts == w.alerts
    && (forall id :: id in w.rules ==>
          && id in w'.rules && w'.rules[id].enabled == w.rules[id].enabled
          && w'.rules[id].rule == match Imported(rules, w.rules[id].rule.name) { case Some(rule) => rule case None => w.rules[id].rule })
  }

  ghost predicate AllTakeOver(w: World, rules: seq<Rule>) {
    forall name :: Imported(rules, name).Some? ==> TakesOver(w, name, Imported(rules, name).value)
  }

  lemma {:induction false} ImportLeaves(w: World, rules: seq<Rule>)
    requires Consistent(w)
    ensures ImportedInto(w, rules, ImportStep(w, rules)) && Consistent(ImportStep(w, rules))
  {
    ImportKeeps(w, rules);
    if rules != [] {
      ImportLeaves(w, Front(rules));
      UpsertLeaves(w, Front(rules), Last(rules), ImportStep(w, Front(rules)), rules);
    }
  }

  lemma {:induction false} ImportedName(rules: seq<Rule>, name: string)
    ensures Imported(rules, name).Some? ==> Imported(rules, name).value.name == name
  {
    if rules != [] {
      ImportedName(Front(rules), name);
    }
  }

  lemma UpsertLeaves(w: World, before: seq<Rule>, rule: Rule, mid: World, rules: seq<Rule>)
    requires Consistent(mid) && ImportedInto(w, before, mid) && rules != [] && before == Front(rules) && rule == Last(rules)
    ensures ImportedInto(w, rules, Upsert(mid, rule))
  {
    forall id | id in w.rules
      ensures id in Upsert(mid, rule).rules && Upsert(mid, rule).rules[id].enabled == w.rules[id].enabled
      ensures Upsert(mid, rule).rules[id].rule
           == match Imported(rules, w.rules[id].rule.name) { case Some(r) => r case None => w.rules[id].rule }
    {
      ImportedName(before, w.rules[id].rule.name);
      UpsertRow(mid, rule, id);
    }
  }

  lemma UpsertRow(mid: World, rule: Rule, id: nat)
    requires Consistent(mid) && id in mid.rules
    ensures var rules := Upsert(mid, rule).rules;
            id in rules && rules[id] == if mid.rules[id].rule.name == rule.name then RuleRow(mid.rules[id].enabled, rule) else mid.rules[id]
  {
    if mid.rules[id].rule.name == rule.name {
      assert NameTaken(mid.rules, rule.name);
    }
  }

  /** An import keeps every open alert watched exactly when each rule it leaves under a name with open
      alerts is on the keys those have. */
  lemma ImportKeepsWatchedIff(w: World, rules: seq<Rule>)
    requires Consistent(w) && AllWatched(w)
    ensures AllWatched(ImportStep(w, rules)) <==> AllTakeOver(w, rules)
  {
    var w' := ImportStep(w, rules);
    ImportLeaves(w, rules);
    forall i | 0 <= i < |w.alerts| && IsOpen(w.alerts[i])
      ensures Watched(w'.rules, w.alerts[i].key)
         <==> (var left := Imported(rules, w.alerts[i].key.rule); left.Some? ==> OnKey(left.value, w.alerts[i].key))
    {
      ImportedAlert(w, rules, w', i);
    }
    if AllTakeOver(w, rules) {
      forall i | 0 <= i < |w.alerts| && IsOpen(w.alerts[i]) ensures Watched(w'.rules, w.alerts[i].key) {
        assert Imported(rules, w.alerts[i].key.rule).Some? ==> TakesOver(w, w.alerts[i].key.rule, Imported(rules, w.alerts[i].key.rule).value);
      }
    }
  }

  lemma ImportedAlert(w: World, rules: seq<Rule>, w': World, i: nat)
    requires NamesUnique(w.rules) && AllWatched(w) && NamesUnique(w'.rules) && ImportedInto(w, rules, w')
    requires i < |w.alerts| && IsOpen(w.alerts[i])
    ensures Watched(w'.rules, w.alerts[i].key)
       <==> (var left := Imported(rules, w.alerts[i].key.rule); left.Some? ==> OnKey(left.value, w.alerts[i].key))
  {
    var key := w.alerts[i].key;
    var id :| id in w.rules && w.rules[id].enabled && w.rules[id].rule.name == key.rule && OnKey(w.rules[id].rule, key);
    ImportedName(rules, key.rule);
    assert id in w'.rules && w'.rules[id].enabled && w'.rules[id].rule.name == key.rule;
    assert Watched(w'.rules, key) <==> OnKey(w'.rules[id].rule, key);
  }

  // ---------------------------------------------------------------- every run

  /** A step that keeps every open alert watched, told by the state before it. */
  ghost predicate Careful(w: World, action: Action) {
    match action
    case Check(rule, _, _, value, at, fault) =>
      || Watched(w.rules, CheckKey(action))
      || !Opens(w, CheckKey(action), Interval(rule), RuleStatus(rule, value), at, fault)
    case UpdateRule(id, rule, enabled, _) =>
      id in w.rules && !NameTaken(w.rules - {id}, rule.name) && enabled ==> TakesOver(w, w.rules[id].rule.name, rule)
    case ImportRules(rules) => AllTakeOver(w, rules)
    case _ => true
  }

  /** The exact edits and checks that keep every open alert watched. */
  lemma StepKeepsWatchedIff(w: World, action: Action)
    requires Consistent(w) && AllWatched(w)
    ensures AllWatched(Step(w, action)) <==> Careful(w, action)
  {
    match action
    case Check(rule, host, target, value, at, fault) =>
      CheckKeepsWatchedIff(w, CheckKey(action), Interval(rule), RuleStatus(rule, value), value, at, fault);
    case CreateRule(rule, enabled) => CreateKeepsWatched(w, rule, enabled);
    case UpdateRule(id, rule, enabled, at) =>
      if id in w.rules && !NameTaken(w.rules - {id}, rule.name) {
        UpdateKeepsWatchedIff(w, id, rule, enabled, at);
      }
    case DeleteRule(id, at) => DeleteKeepsWatched(w, id, at);
    case ImportRules(rules) => ImportKeepsWatchedIff(w, rules);
    case ResolveGone(_, _, _, _) =>
    case ForgetGone(_, _) =>
    case Restart =>
  }

  ghost predicate AllCareful(actions: seq<Action>) {
    actions == [] || (AllCareful(Front(actions)) && Careful(Run(Front(actions)), Last(actions)))
  }

  /** Over every run of checks of enabled rules and of edits that leave the keys of open alerts to
      their rules, every open alert is watched. */
  lemma {:induction false} OpenAlertsStayWatched(actions: seq<Action>)
    requires Legal(actions) && AllCareful(actions)
    ensures AllWatched(Run(actions))
  {
    if actions != [] {
      OpenAlertsStayWatched(Front(actions));
      OpenAlertsStayCovered(Front(actions));
      StepKeepsWatchedIff(Run(Front(actions)), Last(actions));
    }
  }

  /** An edit that keeps a rule's name, and takes it off the key of its open alert, leaves the alert
      covered by name and watched by nobody. */
  lemma EditStrandsAlert(key: Key, edited: Rule)
    requires OnKey(RuleFor(key), key) && edited.name == key.rule && !OnKey(edited, key)
    ensures var w1 := CheckSample(CreateRuleStep(EMPTY, RuleFor(key), true), key, 0, Critical, 90.0, 1, NoFault);
            var w2 := CheckSample(w1, key, 0, Critical, 90.0, 2, NoFault);
            var w3 := UpdateRuleStep(w2, 0, edited, true, 3);
            AllWatched(w2) && Covered(w3) && !AllWatched(w3)
  {
    var rule := RuleFor(key);
    var w0 := CreateRuleStep(EMPTY, rule, true);
    var w1 := CheckSample(w0, key, 0, Critical, 90.0, 1, NoFault);
    assert w1 == w0.(checked := map[key := 1], pending := map[key := Pending(Critical, 1)]);
    var w2 := CheckSample(w1, key, 0, Critical, 90.0, 2, NoFault);
    CheckExtends(w1, key, 0, Critical, 90.0, 2, NoFault);
    assert w2.rules == map[0 := RuleRow(true, rule)] && |w2.alerts| == 1 && IsOpen(w2.alerts[0]) && w2.alerts[0].key == key;
    var w3 := UpdateRuleStep(w2, 0, edited, true, 3);
    assert !NameTaken(w2.rules - {0}, key.rule);
    assert w3.rules == map[0 := RuleRow(true, edited)] && |w3.alerts| == 1 && IsOpen(w3.alerts[0]) && w3.alerts[0].key == key;
  }

  /** A new metric, a new target, a host taken out of the list: each is such an edit. */
  lemma EditsThatStrand(key: Key, metric: Metric, endpoint: string, servers: seq<string>)
    requires OnKey(RuleFor(key), key)
    ensures key.metric != metric && !key.metric.Certificate? ==> !OnKey(RuleFor(key).(metric := metric), key)
    ensures key.metric.Endpoint? && endpoint != key.target ==> !OnKey(RuleFor(key).(endpoint := endpoint), key)
    ensures key.metric == Measured("disks") && endpoint != key.target ==> !OnKey(RuleFor(key).(disk := endpoint), key)
    ensures key.metric == Measured("services") && endpoint != key.target ==> !OnKey(RuleFor(key).(service := endpoint), key)
    ensures key.metric.Measured? && ALL_HOSTS !in servers && key.host !in servers ==> !OnKey(RuleFor(key).(servers := servers), key)
  {
  }
}
