/** What the evaluator does, told by the samples it saw. A sample counts once and only when it is
    newer than every earlier one of its key; the alert then depends on how long the newest
    samples have all been breached, or all been normal. */
module AlertHistory {
  import opened Basics
  import opened Alerting
  import opened AlertRules

  /** A sample that was taken into account, and which of its store calls would fail. */
  datatype Sample = Sample(status: Status, at: int, fault: Fault)

  /** A sample is skipped when the open alert could not be read: its time counts and its status
      does not. */
  predicate IsRead(sample: Sample) {
    !sample.fault.ReadFault?
  }

  predicate Breached(sample: Sample) {
    !sample.status.Normal?
  }

  /** The samples of a key that counted, since the evaluator last started or forgot the key. */
  function Samples(actions: seq<Action>, key: Key): seq<Sample> {
    if actions == [] then []
    else
      var before := Samples(Front(actions), key);
      match Last(actions)
      case Restart => []
      case ForgetGone(rule, present) => if Gone(rule, present, key) then [] else before
      case Check(rule, host, target, value, at, fault) =>
        if Key(host, rule.name, rule.metric, target) == key && (before == [] || at > Last(before).at)
        then before + [Sample(RuleStatus(rule, value), at, fault)]
        else before
      case _ => before
  }

  /** Every sample read from position `from` on is on the same side as the newest one. */
  ghost predicate SameSide(samples: seq<Sample>, from: nat)
    requires |samples| > 0
  {
    forall j :: from <= j < |samples| && IsRead(samples[j]) ==> Breached(samples[j]) == Breached(Last(samples))
  }

  /** The newest sample's side has lasted: an earlier sample lies at least `interval` before the
      newest one, and every sample read from it on is on that side. */
  ghost predicate Lasting(samples: seq<Sample>, interval: int) {
    && |samples| > 0
    && exists b :: 0 <= b < |samples| - 1 && IsRead(samples[b])
                   && Last(samples).at - samples[b].at >= interval && SameSide(samples, b)
  }

  // ---------------------------------------------------------------- safety over every run

  /** A pending change is grounded in the samples: it began at one of them, and every sample read
      since is on its side. */
  ghost predicate Grounded(pending: Pending, samples: seq<Sample>) {
    exists b :: 0 <= b < |samples| && IsRead(samples[b]) && samples[b].at == pending.since
                && forall j :: b <= j < |samples| && IsRead(samples[j]) ==> Breached(samples[j]) == !pending.status.Normal?
  }

  ghost predicate Remembers(w: World, key: Key, samples: seq<Sample>) {
    && (key in w.checked <==> samples != [])
    && (key in w.checked ==> w.checked[key] == Last(samples).at)
    && (key in w.pending ==> Grounded(w.pending[key], samples))
  }

  lemma RemembersAct(w: World, open: Option<nat>, key: Key, interval: int, status: Status, value: real, at: int, fault: Fault,
                     samples: seq<Sample>)
    requires !fault.ReadFault? && Finds(w.alerts, key, open) && (key in w.pending ==> Grounded(w.pending[key], samples))
    ensures var w' := ActOn(w, open, key, interval, status, value, at, fault);
            && w'.checked == w.checked
            && (key in w'.pending ==> Grounded(w'.pending[key], samples + [Sample(status, at, fault)]))
  {
    var w', samples' := ActOn(w, open, key, interval, status, value, at, fault), samples + [Sample(status, at, fault)];
    if key in w'.pending {
      if key in w.pending && w'.pending[key] == w.pending[key] {
        GroundedGrows(w.pending[key], samples, Sample(status, at, fault));
      } else {
        assert samples'[|samples|].at == w'.pending[key].since;
      }
    }
  }

  lemma GroundedGrows(pending: Pending, samples: seq<Sample>, sample: Sample)
    requires Grounded(pending, samples) && (IsRead(sample) ==> Breached(sample) == !pending.status.Normal?)
    ensures Grounded(pending, samples + [sample])
  {
    var b :| 0 <= b < |samples| && IsRead(samples[b]) && samples[b].at == pending.since
             && forall j :: b <= j < |samples| && IsRead(samples[j]) ==> Breached(samples[j]) == !pending.status.Normal?;
    assert (samples + [sample])[b] == samples[b];
  }

  lemma RemembersSample(w: World, key: Key, interval: int, status: Status, value: real, at: int, fault: Fault,
                        samples: seq<Sample>)
    requires Remembers(w, key, samples) && !Late(w, key, at)
    ensures Remembers(CheckSample(w, key, interval, status, value, at, fault), key, samples + [Sample(status, at, fault)])
  {
    if fault.ReadFault? {
      if key in w.pending {
        GroundedGrows(w.pending[key], samples, Sample(status, at, fault));
      }
    } else {
      RemembersAct(w.(checked := w.checked[key := at]), OpenAlert(w.alerts, key), key, interval, status, value, at, fault, samples);
    }
  }

  /** Over every run, a pending change began at an earlier sample that was read, and every sample
      read since is on its side. */
  lemma {:induction false} RunRemembers(actions: seq<Action>, key: Key)
    ensures Remembers(Run(actions), key, Samples(actions, key))
  {
    if actions != [] {
      RunRemembers(Front(actions), key);
      var w, action := Run(Front(actions)), Last(actions);
      match action
      case Check(_, _, _, _, _, _) =>
        if CheckKey(action) != key {
          CheckRemembersOnly(w, CheckKey(action), Interval(action.rule), RuleStatus(action.rule, action.value), action.value,
                             action.at, action.fault, key);
        } else if !Late(w, key, action.at) {
          RemembersSample(w, key, Interval(action.rule), RuleStatus(action.rule, action.value), action.value, action.at, action.fault,
                          Samples(Front(actions), key));
        }
      case ImportRules(rules) => ImportKeepsMemory(w, rules);
      case _ =>
    }
  }

  lemma {:induction false} ImportKeepsMemory(w: World, rules: seq<Rule>)
    ensures var w' := ImportStep(w, rules);
            w'.alerts == w.alerts && w'.pending == w.pending && w'.checked == w.checked && w'.notices == w.notices
  {
    if rules != [] {
      ImportKeepsMemory(w, Front(rules));
    }
  }

  /** A notice from a sample that counted, with the samples up to it. */
  ghost predicate Earned(notice: Notice, samples: seq<Sample>, interval: int) {
    && samples != [] && Last(samples) == Sample(notice.severity, notice.at, NoFault)
    && (notice.kind.Opened? ==> Lasting(samples, interval) && Breached(Last(samples)))
    && (notice.kind.Resolved? ==> Lasting(samples, interval) && !Breached(Last(samples)))
    && (notice.kind.Changed? ==> Breached(Last(samples)))
  }

  lemma ActEarnsNotice(w: World, open: Option<nat>, key: Key, interval: int, status: Status, value: real, at: int, fault: Fault,
                       samples: seq<Sample>)
    requires !fault.ReadFault? && Finds(w.alerts, key, open) && (key in w.pending ==> Grounded(w.pending[key], samples))
    ensures var w' := ActOn(w, open, key, interval, status, value, at, fault);
            || w'.notices == w.notices
            || (|w'.notices| == |w.notices| + 1 && Last(w'.notices).key == key
                && Earned(Last(w'.notices), samples + [Sample(status, at, fault)], interval))
  {
    var w', samples' := ActOn(w, open, key, interval, status, value, at, fault), samples + [Sample(status, at, fault)];
    if w'.notices != w.notices && !Last(w'.notices).kind.Changed? {
      var b :| 0 <= b < |samples| && IsRead(samples[b]) && samples[b].at == w.pending[key].since
               && forall j :: b <= j < |samples| && IsRead(samples[j]) ==> Breached(samples[j]) == !w.pending[key].status.Normal?;
      assert samples'[b] == samples[b] && SameSide(samples', b);
    }
  }

  lemma SampleEarnsNotice(w: World, key: Key, interval: int, status: Status, value: real, at: int, fault: Fault,
                          samples: seq<Sample>)
    requires Remembers(w, key, samples)
    ensures var w' := CheckSample(w, key, interval, status, value, at, fault);
            || w'.notices == w.notices
            || (|w'.notices| == |w.notices| + 1 && !Late(w, key, at) && !fault.ReadFault? && Last(w'.notices).key == key
                && Earned(Last(w'.notices), samples + [Sample(status, at, fault)], interval))
  {
    if fault.ReadFault? {
      return;
    }
    ActEarnsNotice(w.(checked := w.checked[key := at]), OpenAlert(w.alerts, key), key, interval, status, value, at, fault, samples);
  }

  /** Over every run, with restarts, store failures, rule edits and vanishing targets anywhere, a
      check opens an alert only after a full interval in which every sample that was read is
      breached, and resolves one only after a full interval in which every sample that was read is
      normal. Samples that could not be read may lie between them. */
  lemma AlertsAreEarned(actions: seq<Action>, action: Action)
    requires action.Check? && Run(actions + [action]).notices != Run(actions).notices
    ensures var notices := Run(actions + [action]).notices;
            && |notices| == |Run(actions).notices| + 1 && Last(notices).key == CheckKey(action)
            && Earned(Last(notices), Samples(actions + [action], CheckKey(action)), Interval(action.rule))
  {
    RunOneMore(actions, action);
    assert Front(actions + [action]) == actions;
    RunRemembers(actions, CheckKey(action));
    SampleEarnsNotice(Run(actions), CheckKey(action), Interval(action.rule), RuleStatus(action.rule, action.value),
                      action.value, action.at, action.fault, Samples(actions, CheckKey(action)));
  }

  // ---------------------------------------------------------------- the alert as a function of the history

  /** The samples that were read. */
  function ReadOf(samples: seq<Sample>): seq<Sample> {
    if samples == [] then []
    else if IsRead(Last(samples)) then ReadOf(Front(samples)) + [Last(samples)]
    else ReadOf(Front(samples))
  }

  /** The severity of the open alert after a history of samples that were read, if one is open. It
      opens when the newest samples have been breached for the interval, follows the newest breached
      sample, and resolves when the newest samples have been normal for the interval. A change that
      cannot be written waits for the next sample, and one whose answer is lost is made. */
  ghost function Severity(samples: seq<Sample>, interval: int): Option<Status> {
    if samples == [] then None
    else
      var before := Severity(Front(samples), interval);
      if Last(samples).fault.WriteFault? then before
      else if before.None? then
        if Breached(Last(samples)) && Lasting(samples, interval) then Some(Last(samples).status) else None
      else if Breached(Last(samples)) then Some(Last(samples).status)
      else if Lasting(samples, interval) then None
      else before
  }

  datatype Message = Message(kind: Kind, severity: Status, at: int)

  /** What a change of the open alert's severity makes the channels hear: nothing when the store's
      answer is lost. */
  function Told(before: Option<Status>, after: Option<Status>, sample: Sample): seq<Message> {
    if before == after || sample.fault.AnswerLost? then []
    else if before.None? then [Message(Opened, after.value, sample.at)]
    else if after.None? then [Message(Resolved, Normal, sample.at)]
    else [Message(Changed, after.value, sample.at)]
  }

  ghost function Messages(samples: seq<Sample>, interval: int): seq<Message> {
    if samples == [] then []
    else Messages(Front(samples), interval)
         + Told(Severity(Front(samples), interval), Severity(samples, interval), Last(samples))
  }

  /** What was sent about a key. */
  function Sent(notices: seq<Notice>, key: Key): seq<Message> {
    if notices == [] then []
    else Sent(Front(notices), key)
         + if Last(notices).key == key then [Message(Last(notices).kind, Last(notices).severity, Last(notices).at)] else []
  }

  function OpenSeverity(alerts: seq<Alert>, key: Key): Option<Status> {
    match OpenAlert(alerts, key)
    case Some(id) => Some(alerts[id].severity)
    case None => None
  }

  /** Where the run of samples on the newest one's side begins. */
  function SideStart(samples: seq<Sample>): (b: nat)
    requires |samples| > 0
    ensures b < |samples|
  {
    if |samples| == 1 || Breached(Last(Front(samples))) != Breached(Last(samples)) then |samples| - 1
    else SideStart(Front(samples))
  }

  ghost predicate Ordered(samples: seq<Sample>) {
    && (forall i :: 0 <= i < |samples| ==> IsRead(samples[i]))
    && (forall i, j :: 0 <= i < j < |samples| ==> samples[i].at < samples[j].at)
  }

  lemma {:induction false} SideStartIsFirst(samples: seq<Sample>)
    requires |samples| > 0 && Ordered(samples)
    ensures forall j :: SideStart(samples) <= j < |samples| ==> Breached(samples[j]) == Breached(Last(samples))
    ensures SideStart(samples) > 0 ==> Breached(samples[SideStart(samples) - 1]) != Breached(Last(samples))
  {
    if !(|samples| == 1 || Breached(Last(Front(samples))) != Breached(Last(samples))) {
      SideStartIsFirst(Front(samples));
    }
  }

  /** One look at where the newest side began decides whether it has lasted. */
  lemma LastingFromStart(samples: seq<Sample>, interval: int)
    requires |samples| > 0 && Ordered(samples)
    ensures Lasting(samples, interval)
       <==> SideStart(samples) < |samples| - 1 && Last(samples).at - samples[SideStart(samples)].at >= interval
  {
    SideStartIsFirst(samples);
    var start := SideStart(samples);
    if Lasting(samples, interval) {
      var b :| 0 <= b < |samples| - 1 && Last(samples).at - samples[b].at >= interval && SameSide(samples, b);
      assert start <= b;
    }
    if start < |samples| - 1 && Last(samples).at - samples[start].at >= interval {
      assert SameSide(samples, start);
    }
  }

  /** The evaluator's state for a key is what its samples say. The time of the last check is that of
      the newest sample. Everything else depends on the samples that were read only: the alert's
      severity, what was sent, and a change that waits exactly while the newest sample read disagrees
      with the alert. */
  ghost predicate Follows(w: World, key: Key, all: seq<Sample>, interval: int) {
    && (key in w.checked <==> all != [])
    && (key in w.checked ==> w.checked[key] == Last(all).at)
    && FollowsRead(w, key, ReadOf(all), interval)
    && (ReadOf(all) != [] ==> all != [] && Last(ReadOf(all)).at <= Last(all).at)
  }

  /** A pending change that would change the key's alert. One left over from a write whose answer was
      lost would not, and is ignored. */
  predicate Waits(w: World, key: Key) {
    key in w.pending && w.pending[key].status.Normal? == OpenAlert(w.alerts, key).Some?
  }

  ghost predicate FollowsRead(w: World, key: Key, samples: seq<Sample>, interval: int) {
    && Ordered(samples)
    && OpenSeverity(w.alerts, key) == Severity(samples, interval)
    && Sent(w.notices, key) == Messages(samples, interval)
    && (Waits(w, key) <==> samples != [] && Breached(Last(samples)) == Severity(samples, interval).None?)
    && (Waits(w, key) ==>
          && w.pending[key].since == samples[SideStart(samples)].at
          && !w.pending[key].status.Normal? == Breached(Last(samples)))
  }

  /** Only checks happen, and those of the key have one trigger interval. Store calls may fail. */
  predicate Undisturbed(actions: seq<Action>, key: Key, interval: int) {
    forall i :: 0 <= i < |actions| ==>
      && actions[i].Check?
      && (CheckKey(actions[i]) == key ==> Interval(actions[i].rule) == interval)
  }

  lemma OpenAlertIs(alerts: seq<Alert>, key: Key, id: nat)
    requires UniqueOpen(alerts) && id < |alerts| && IsOpen(alerts[id]) && alerts[id].key == key
    ensures OpenAlert(alerts, key) == Some(id)
  {
  }

  lemma OpenSeverityOf(alerts: seq<Alert>, key: Key, severity: Option<Status>)
    requires UniqueOpen(alerts)
    requires severity.Some? ==>
      exists id :: 0 <= id < |alerts| && IsOpen(alerts[id]) && alerts[id].key == key && alerts[id].severity == severity.value
    requires severity.None? ==> forall id :: 0 <= id < |alerts| && IsOpen(alerts[id]) ==> alerts[id].key != key
    ensures OpenSeverity(alerts, key) == severity
  {
    if severity.Some? {
      var id :| 0 <= id < |alerts| && IsOpen(alerts[id]) && alerts[id].key == key && alerts[id].severity == severity.value;
      OpenAlertIs(alerts, key, id);
    }
  }

  predicate SameAt<V(==)>(m: map<Key, V>, m': map<Key, V>, key: Key) {
    (key in m' <==> key in m) && (key in m ==> m'[key] == m[key])
  }

  /** At most the alert of the touched key changes, and at most one notice is sent, about it. */
  ghost predicate TouchesOnly(w: World, w': World, touched: Key) {
    && |w.alerts| <= |w'.alerts| <= |w.alerts| + 1
    && (forall i :: 0 <= i < |w.alerts| ==> w'.alerts[i].key == w.alerts[i].key)
    && (forall i :: 0 <= i < |w.alerts| && w.alerts[i].key != touched ==> w'.alerts[i] == w.alerts[i])
    && (|w'.alerts| > |w.alerts| ==> Last(w'.alerts).key == touched)
    && (w'.notices == w.notices
        || (|w'.notices| > 0 && Front(w'.notices) == w.notices && Last(w'.notices).key == touched))
  }

  lemma ActTouchesOnly(w: World, open: Option<nat>, touched: Key, interval: int, status: Status, value: real,
                       at: int, fault: Fault)
    requires Finds(w.alerts, touched, open)
    ensures TouchesOnly(w, ActOn(w, open, touched, interval, status, value, at, fault), touched)
  {
    var w' := ActOn(w, open, touched, interval, status, value, at, fault);
    if |w'.notices| > |w.notices| {
      assert Front(w'.notices) == w.notices;
    }
  }

  lemma ActRemembersOnly(w: World, open: Option<nat>, touched: Key, interval: int, status: Status, value: real,
                         at: int, fault: Fault, key: Key)
    requires Finds(w.alerts, touched, open) && touched != key
    ensures var w' := ActOn(w, open, touched, interval, status, value, at, fault);
            w'.checked == w.checked && SameAt(w.pending, w'.pending, key)
  {
  }

  lemma CheckTouchesOnly(w: World, touched: Key, interval: int, status: Status, value: real, at: int, fault: Fault)
    ensures TouchesOnly(w, CheckSample(w, touched, interval, status, value, at, fault), touched)
  {
    ActTouchesOnly(w.(checked := w.checked[touched := at]), OpenAlert(w.alerts, touched), touched, interval, status, value, at, fault);
  }

  lemma CheckRemembersOnly(w: World, touched: Key, interval: int, status: Status, value: real, at: int, fault: Fault, key: Key)
    requires touched != key
    ensures var w' := CheckSample(w, touched, interval, status, value, at, fault);
            SameAt(w.checked, w'.checked, key) && SameAt(w.pending, w'.pending, key)
  {
    ActRemembersOnly(w.(checked := w.checked[touched := at]), OpenAlert(w.alerts, touched), touched, interval, status, value, at, fault, key);
  }

  lemma FrameOf(w: World, w': World, touched: Key, key: Key)
    requires UniqueOpen(w.alerts) && UniqueOpen(w'.alerts) && TouchesOnly(w, w', touched) && touched != key
    ensures OpenSeverity(w'.alerts, key) == OpenSeverity(w.alerts, key)
    ensures Sent(w'.notices, key) == Sent(w.notices, key)
  {
    AlertsFrame(w.alerts, w'.alerts, touched, key);
  }

  /** A check touches nothing about other keys. */
  lemma CheckFrame(w: World, touched: Key, interval: int, status: Status, value: real, at: int, fault: Fault, key: Key)
    requires UniqueOpen(w.alerts) && touched != key
    ensures var w' := CheckSample(w, touched, interval, status, value, at, fault);
            && UniqueOpen(w'.alerts)
            && OpenSeverity(w'.alerts, key) == OpenSeverity(w.alerts, key)
            && Sent(w'.notices, key) == Sent(w.notices, key)
            && SameAt(w.checked, w'.checked, key) && SameAt(w.pending, w'.pending, key)
  {
    CheckKeepsUnique(w, touched, interval, status, value, at, fault);
    CheckTouchesOnly(w, touched, interval, status, value, at, fault);
    CheckRemembersOnly(w, touched, interval, status, value, at, fault, key);
    FrameOf(w, CheckSample(w, touched, interval, status, value, at, fault), touched, key);
  }

  lemma AlertsFrame(alerts: seq<Alert>, alerts': seq<Alert>, touched: Key, key: Key)
    requires UniqueOpen(alerts) && UniqueOpen(alerts') && touched != key && |alerts| <= |alerts'| <= |alerts| + 1
    requires forall i :: 0 <= i < |alerts| ==> alerts'[i].key == alerts[i].key
    requires forall i :: 0 <= i < |alerts| && alerts[i].key != touched ==> alerts'[i] == alerts[i]
    requires |alerts'| > |alerts| ==> Last(alerts').key == touched
    ensures OpenSeverity(alerts', key) == OpenSeverity(alerts, key)
  {
    var id := OpenAlert(alerts, key);
    if id.Some? {
      assert alerts'[id.value] == alerts[id.value];
    }
    OpenSeverityOf(alerts', key, OpenSeverity(alerts, key));
  }

  /** The open alert's severity after a sample; `due` when the pending change has lasted. */
  function NextSeverity(before: Option<Status>, status: Status, due: bool, fault: Fault): Option<Status> {
    if fault.WriteFault? then before
    else if before.None? then if !status.Normal? && due then Some(status) else None
    else if !status.Normal? then Some(status)
    else if due then None
    else before
  }

  predicate Due(w: World, key: Key, interval: int, status: Status, at: int) {
    key in w.pending && w.pending[key].status.Normal? == status.Normal? && at - w.pending[key].since >= interval
  }

  /** What a sample that is read does to its key's open alert, pending change and messages. */
  ghost predicate Effect(w: World, w': World, key: Key, interval: int, status: Status, at: int, fault: Fault) {
    var before := OpenSeverity(w.alerts, key);
    var after := NextSeverity(before, status, Due(w, key, interval, status, at), fault);
    && UniqueOpen(w'.alerts)
    && OpenSeverity(w'.alerts, key) == after
    && Sent(w'.notices, key) == Sent(w.notices, key) + Told(before, after, Sample(status, at, fault))
    && (Waits(w', key) <==> !status.Normal? == after.None?)
    && (Waits(w', key) ==>
          w'.pending[key] == if key in w.pending && w.pending[key].status.Normal? == status.Normal? then w.pending[key]
                             else Pending(status, at))
  }

  /** A sample of a key without an open alert. */
  lemma OpenEffect(w: World, key: Key, interval: int, status: Status, value: real, at: int)
    requires UniqueOpen(w.alerts) && OpenAlert(w.alerts, key).None?
    ensures Effect(w, OpenIfBreached(w, interval, key, status, value, at, NoFault), key, interval, status, at, NoFault)
  {
    var w' := OpenIfBreached(w, interval, key, status, value, at, NoFault);
    ActKeepsUnique(w, None, key, interval, status, value, at, NoFault);
    if |w'.alerts| > |w.alerts| {
      OpenAlertIs(w'.alerts, key, |w.alerts|);
      assert Front(w'.notices) == w.notices;
    }
  }

  /** A sample of a key with one. */
  lemma UpdateEffect(w: World, id: nat, key: Key, interval: int, status: Status, value: real, at: int)
    requires UniqueOpen(w.alerts) && OpenAlert(w.alerts, key) == Some(id)
    ensures Effect(w, UpdateOpen(w, interval, key, id, status, value, at, NoFault), key, interval, status, at, NoFault)
  {
    var w' := UpdateOpen(w, interval, key, id, status, value, at, NoFault);
    ActKeepsUnique(w, Some(id), key, interval, status, value, at, NoFault);
    if IsOpen(w'.alerts[id]) {
      OpenAlertIs(w'.alerts, key, id);
    }
    if w'.notices != w.notices {
      assert Front(w'.notices) == w.notices;
    }
  }

  lemma ActEffect(w: World, open: Option<nat>, key: Key, interval: int, status: Status, value: real, at: int)
    requires UniqueOpen(w.alerts) && open == OpenAlert(w.alerts, key)
    ensures Effect(w, ActOn(w, open, key, interval, status, value, at, NoFault), key, interval, status, at, NoFault)
  {
    match open
    case None => OpenEffect(w, key, interval, status, value, at);
    case Some(id) => UpdateEffect(w, id, key, interval, status, value, at);
  }

  /** What cannot be written leaves the alerts alone and tells nobody. */
  lemma UnwrittenEffect(w: World, open: Option<nat>, key: Key, interval: int, status: Status, value: real, at: int)
    requires UniqueOpen(w.alerts) && open == OpenAlert(w.alerts, key)
    ensures Effect(w, ActOn(w, open, key, interval, status, value, at, WriteFault), key, interval, status, at, WriteFault)
  {
    var w' := ActOn(w, open, key, interval, status, value, at, WriteFault);
    assert w'.alerts == w.alerts && w'.notices == w.notices;
    assert Sent(w.notices, key) + [] == Sent(w.notices, key);
  }

  /** What is written without an answer changes the alert and tells nobody. */
  lemma UnheardEffect(w: World, open: Option<nat>, key: Key, interval: int, status: Status, value: real, at: int)
    requires UniqueOpen(w.alerts) && open == OpenAlert(w.alerts, key)
    ensures Effect(w, ActOn(w, open, key, interval, status, value, at, AnswerLost), key, interval, status, at, AnswerLost)
  {
    match open
    case None => UnheardOpen(w, key, interval, status, value, at);
    case Some(id) => UnheardUpdate(w, id, key, interval, status, value, at);
  }

  lemma UnheardOpen(w: World, key: Key, interval: int, status: Status, value: real, at: int)
    requires UniqueOpen(w.alerts) && OpenAlert(w.alerts, key).None?
    ensures Effect(w, OpenIfBreached(w, interval, key, status, value, at, AnswerLost), key, interval, status, at, AnswerLost)
  {
    var w' := OpenIfBreached(w, interval, key, status, value, at, AnswerLost);
    ActKeepsUnique(w, None, key, interval, status, value, at, AnswerLost);
    if |w'.alerts| > |w.alerts| {
      OpenAlertIs(w'.alerts, key, |w.alerts|);
    }
    assert Sent(w.notices, key) + [] == Sent(w.notices, key);
  }

  lemma UnheardUpdate(w: World, id: nat, key: Key, interval: int, status: Status, value: real, at: int)
    requires UniqueOpen(w.alerts) && OpenAlert(w.alerts, key) == Some(id)
    ensures Effect(w, UpdateOpen(w, interval, key, id, status, value, at, AnswerLost), key, interval, status, at, AnswerLost)
  {
    var w' := UpdateOpen(w, interval, key, id, status, value, at, AnswerLost);
    ActKeepsUnique(w, Some(id), key, interval, status, value, at, AnswerLost);
    if IsOpen(w'.alerts[id]) {
      OpenAlertIs(w'.alerts, key, id);
    }
    assert Sent(w.notices, key) + [] == Sent(w.notices, key);
  }

  lemma CheckEffect(w: World, key: Key, interval: int, status: Status, value: real, at: int, fault: Fault)
    requires UniqueOpen(w.alerts) && !Late(w, key, at) && !fault.ReadFault?
    ensures var w' := CheckSample(w, key, interval, status, value, at, fault);
            Effect(w, w', key, interval, status, at, fault) && w'.checked == w.checked[key := at]
  {
    var w1 := w.(checked := w.checked[key := at]);
    if fault.WriteFault? {
      UnwrittenEffect(w1, OpenAlert(w.alerts, key), key, interval, status, value, at);
    } else if fault.AnswerLost? {
      UnheardEffect(w1, OpenAlert(w.alerts, key), key, interval, status, value, at);
    } else {
      ActEffect(w1, OpenAlert(w.alerts, key), key, interval, status, value, at);
    }
    ActChecks(w1, OpenAlert(w.alerts, key), key, interval, status, value, at, fault);
  }

  lemma ActChecks(w: World, open: Option<nat>, key: Key, interval: int, status: Status, value: real, at: int, fault: Fault)
    requires Finds(w.alerts, key, open)
    ensures ActOn(w, open, key, interval, status, value, at, fault).checked == w.checked
  {
  }

  lemma SeverityOneMore(samples: seq<Sample>, sample: Sample, interval: int)
    ensures var longer := samples + [sample];
            && Severity(longer, interval)
               == NextSeverity(Severity(samples, interval), sample.status, Lasting(longer, interval), sample.fault)
            && Messages(longer, interval)
               == Messages(samples, interval) + Told(Severity(samples, interval), Severity(longer, interval), sample)
  {
    assert Front(samples + [sample]) == samples && Last(samples + [sample]) == sample;
  }

  /** Where the newest side began, once one more sample is read. */
  lemma SideStartOneMore(samples: seq<Sample>, sample: Sample)
    ensures var longer := samples + [sample];
            longer[SideStart(longer)].at
            == if samples != [] && Breached(Last(samples)) == Breached(sample) then samples[SideStart(samples)].at else sample.at
  {
    var longer := samples + [sample];
    assert Front(longer) == samples && Last(longer) == sample;
  }

  /** A sample's side has lasted as the pending change says, where that matters. */
  lemma DueIsLasting(w: World, key: Key, interval: int, sample: Sample, samples: seq<Sample>)
    requires FollowsRead(w, key, samples, interval) && (samples != [] ==> Last(samples).at < sample.at) && IsRead(sample)
    ensures Ordered(samples + [sample])
    ensures var before := Severity(samples, interval);
            NextSeverity(before, sample.status, Due(w, key, interval, sample.status, sample.at), sample.fault)
            == NextSeverity(before, sample.status, Lasting(samples + [sample], interval), sample.fault)
  {
    var longer := samples + [sample];
    assert Front(longer) == samples && Last(longer) == sample;
    LastingFromStart(longer, interval);
    SideStartOneMore(samples, sample);
    if samples != [] && Breached(Last(samples)) == Breached(sample) {
      assert SideStart(longer) == SideStart(samples);
    }
  }

  lemma EffectFollows(w: World, w': World, key: Key, interval: int, status: Status, at: int, fault: Fault, samples: seq<Sample>)
    requires FollowsRead(w, key, samples, interval) && (samples != [] ==> Last(samples).at < at) && !fault.ReadFault?
    requires Effect(w, w', key, interval, status, at, fault)
    ensures FollowsRead(w', key, samples + [Sample(status, at, fault)], interval)
  {
    var sample := Sample(status, at, fault);
    SeverityOneMore(samples, sample, interval);
    DueIsLasting(w, key, interval, sample, samples);
    SideStartOneMore(samples, sample);
    assert Last(samples + [sample]) == sample;
  }

  lemma FollowsStep(w: World, key: Key, interval: int, status: Status, value: real, at: int, fault: Fault, all: seq<Sample>)
    requires UniqueOpen(w.alerts) && !Late(w, key, at) && Follows(w, key, all, interval)
    ensures Follows(CheckSample(w, key, interval, status, value, at, fault), key, all + [Sample(status, at, fault)], interval)
  {
    assert Front(all + [Sample(status, at, fault)]) == all;
    if !fault.ReadFault? {
      CheckEffect(w, key, interval, status, value, at, fault);
      EffectFollows(w, CheckSample(w, key, interval, status, value, at, fault), key, interval, status, at, fault, ReadOf(all));
    }
  }

  /** With no restarts or outside edits, and for any history of checks on any keys, with repeated and
      late samples and store calls that fail among them, a key's open alert, its pending change and
      everything sent about it are functions of its samples that were read. So all a failed read
      costs is its own sample, all a failed write costs is a wait for the next one, and all a lost
      answer costs is its own message. */
  lemma {:induction false} EvaluatorFollowsHistory(actions: seq<Action>, key: Key, interval: int)
    requires Undisturbed(actions, key, interval)
    ensures UniqueOpen(Run(actions).alerts)
    ensures Follows(Run(actions), key, Samples(actions, key), interval)
  {
    if actions != [] {
      var before, action := Front(actions), Last(actions);
      assert actions[|actions| - 1] == action;
      assert forall i :: 0 <= i < |before| ==> before[i] == actions[i];
      EvaluatorFollowsHistory(before, key, interval);
      var w := Run(before);
      var status := RuleStatus(action.rule, action.value);
      CheckKeepsUnique(w, CheckKey(action), Interval(action.rule), status, action.value, action.at, action.fault);
      if CheckKey(action) != key {
        CheckFrame(w, CheckKey(action), Interval(action.rule), status, action.value, action.at, action.fault, key);
      } else if !Late(w, key, action.at) {
        FollowsStep(w, key, interval, status, action.value, action.at, action.fault, Samples(before, key));
      }
    }
  }

  /** The law in one line: a new sample opens an alert exactly when none is open, its store calls are
      done and the breach has lasted over the samples that were read, and resolves it exactly when
      one is open and normal has lasted. */
  lemma OpensAndResolvesExactlyWhen(actions: seq<Action>, action: Action, interval: int)
    requires action.Check? && Undisturbed(actions + [action], CheckKey(action), interval)
    requires !Late(Run(actions), CheckKey(action), action.at)
    ensures var key, all := CheckKey(action), Samples(actions + [action], CheckKey(action));
            var before, after := Run(actions), Run(actions + [action]);
            var lasted := GetsWritten(action.fault) && Lasting(ReadOf(all), interval);
            && all != [] && Last(all) == Sample(RuleStatus(action.rule, action.value), action.at, action.fault)
            && (OpenAlert(before.alerts, key).None? ==>
                  (OpenAlert(after.alerts, key).Some? <==> Breached(Last(all)) && lasted))
            && (OpenAlert(before.alerts, key).Some? ==>
                  (OpenAlert(after.alerts, key).None? <==> !Breached(Last(all)) && lasted))
  {
    var key := CheckKey(action);
    assert Front(actions + [action]) == actions;
    assert forall i :: 0 <= i < |actions| ==> (actions + [action])[i] == actions[i];
    EvaluatorFollowsHistory(actions, key, interval);
    EvaluatorFollowsHistory(actions + [action], key, interval);
    var sample := Sample(RuleStatus(action.rule, action.value), action.at, action.fault);
    assert Samples(actions + [action], key) == Samples(actions, key) + [sample];
    SeverityStep(Samples(actions, key), sample, interval);
    OpenIffSeverity(Run(actions), key);
    OpenIffSeverity(Run(actions + [action]), key);
  }

  lemma OpenIffSeverity(w: World, key: Key)
    ensures OpenAlert(w.alerts, key).Some? <==> OpenSeverity(w.alerts, key).Some?
  {
  }

  lemma SeverityStep(all: seq<Sample>, sample: Sample, interval: int)
    ensures var before, after := Severity(ReadOf(all), interval), Severity(ReadOf(all + [sample]), interval);
            var lasted := GetsWritten(sample.fault) && Lasting(ReadOf(all + [sample]), interval);
            && (before.None? ==> (after.Some? <==> Breached(sample) && lasted))
            && (before.Some? ==> (after.None? <==> !Breached(sample) && lasted))
  {
    assert Front(all + [sample]) == all;
    if IsRead(sample) {
      assert Front(ReadOf(all) + [sample]) == ReadOf(all);
    }
  }

  /** A failed read can hide that things were well in between: breached, normal but not read, and
      breached again an interval after the first opens an alert. */
  lemma FailedReadHidesSample(host: string, target: string)
    ensures var rule := Rule("cpu", Measured("cpu"), Above, 50, 80, 10, 0, 0, 0, [host], "", "", "");
            var key := Key(host, rule.name, rule.metric, target);
            var actions := [Check(rule, host, target, 90.0, 0, NoFault), Check(rule, host, target, 10.0, 5 * SECOND, ReadFault),
                            Check(rule, host, target, 90.0, 10 * SECOND, NoFault)];
            && Samples(actions, key)
               == [Sample(Critical, 0, NoFault), Sample(Normal, 5 * SECOND, ReadFault), Sample(Critical, 10 * SECOND, NoFault)]
            && Run(actions).notices == [Notice(0, key, Opened, Critical, 90.0, 10 * SECOND)]
  {
    var rule := Rule("cpu", Measured("cpu"), Above, 50, 80, 10, 0, 0, 0, [host], "", "", "");
    var c1, c2 := Check(rule, host, target, 90.0, 0, NoFault), Check(rule, host, target, 10.0, 5 * SECOND, ReadFault);
    var c3 := Check(rule, host, target, 90.0, 10 * SECOND, NoFault);
    assert Front([c1]) == [] && Front([c1, c2]) == [c1] && Front([c1, c2, c3]) == [c1, c2];
    RunOfThree(rule, host, target, c1, c2, c3);
    SamplesOfThree(Key(host, rule.name, rule.metric, target), c1, c2, c3);
  }

  lemma SamplesOfThree(key: Key, c1: Action, c2: Action, c3: Action)
    requires c1.Check? && c2.Check? && c3.Check? && CheckKey(c1) == CheckKey(c2) == CheckKey(c3) == key && c1.at < c2.at < c3.at
    ensures Samples([c1, c2, c3], key)
         == [Sample(RuleStatus(c1.rule, c1.value), c1.at, c1.fault), Sample(RuleStatus(c2.rule, c2.value), c2.at, c2.fault),
             Sample(RuleStatus(c3.rule, c3.value), c3.at, c3.fault)]
  {
    assert Front([c1]) == [] && Front([c1, c2]) == [c1] && Front([c1, c2, c3]) == [c1, c2];
    assert Samples([c1], key) == [Sample(RuleStatus(c1.rule, c1.value), c1.at, c1.fault)];
    assert Samples([c1, c2], key) == Samples([c1], key) + [Sample(RuleStatus(c2.rule, c2.value), c2.at, c2.fault)];
  }

  lemma RunOfThree(rule: Rule, host: string, target: string, c1: Action, c2: Action, c3: Action)
    requires rule == Rule("cpu", Measured("cpu"), Above, 50, 80, 10, 0, 0, 0, [host], "", "", "")
    requires c1 == Check(rule, host, target, 90.0, 0, NoFault) && c2 == Check(rule, host, target, 10.0, 5 * SECOND, ReadFault)
    requires c3 == Check(rule, host, target, 90.0, 10 * SECOND, NoFault)
    ensures Run([c1, c2, c3]).notices == [Notice(0, CheckKey(c3), Opened, Critical, 90.0, 10 * SECOND)]
  {
    RunIsOneCheckMore([], c1, [c1]);
    RunIsOneCheckMore([c1], c2, [c1, c2]);
    RunIsOneCheckMore([c1, c2], c3, [c1, c2, c3]);
    ThreeSteps(CheckKey(c3), rule, Run([c1]), Run([c1, c2]), Run([c1, c2, c3]));
  }

  lemma RunIsOneCheckMore(before: seq<Action>, check: Action, actions: seq<Action>)
    requires check.Check? && actions == before + [check]
    ensures Run(actions) == CheckSample(Run(before), CheckKey(check), Interval(check.rule), RuleStatus(check.rule, check.value),
                                        check.value, check.at, check.fault)
  {
    RunOneMore(before, check);
  }

  lemma ThreeSteps(key: Key, rule: Rule, w1: World, w2: World, w3: World)
    requires Interval(rule) == 10 * SECOND && RuleStatus(rule, 90.0).Critical?
    requires w1 == CheckSample(EMPTY, key, Interval(rule), Critical, 90.0, 0, NoFault)
    requires w2 == CheckSample(w1, key, Interval(rule), RuleStatus(rule, 10.0), 10.0, 5 * SECOND, ReadFault)
    requires w3 == CheckSample(w2, key, Interval(rule), Critical, 90.0, 10 * SECOND, NoFault)
    ensures w3.notices == [Notice(0, key, Opened, Critical, 90.0, 10 * SECOND)]
  {
    assert w1 == World(map[], 0, [], map[key := Pending(Critical, 0)], map[key := 0], []);
    assert w2 == World(map[], 0, [], map[key := Pending(Critical, 0)], map[key := 5 * SECOND], []);
  }

  /** A rule without a trigger interval, as for certificates, alerts on the second breached sample
      in a row and never on the first. */
  lemma NoIntervalNeedsTwoSamples(samples: seq<Sample>)
    requires |samples| > 0 && Ordered(samples)
    ensures Lasting(samples, 0) <==> |samples| >= 2 && Breached(samples[|samples| - 2]) == Breached(Last(samples))
  {
    LastingFromStart(samples, 0);
    SideStartIsFirst(samples);
  }

  // ---------------------------------------------------------------- after a restart

  /** Checks, restarts and vanished targets, without failures on the key and without rule edits. */
  predicate Unedited(actions: seq<Action>, key: Key) {
    forall i :: 0 <= i < |actions| ==>
      && (actions[i].Check? || actions[i].Restart? || actions[i].ResolveGone? || actions[i].ForgetGone?)
      && (actions[i].Check? && CheckKey(actions[i]) == key ==> actions[i].fault.NoFault?)
  }

  /** An open alert's severity is that of the newest sample, when that one was breached. */
  lemma {:induction false} SeverityIsNewest(actions: seq<Action>, key: Key)
    requires Unedited(actions, key)
    ensures UniqueOpen(Run(actions).alerts)
    ensures var samples := Samples(actions, key);
            samples != [] && Breached(Last(samples)) && OpenAlert(Run(actions).alerts, key).Some?
            ==> OpenSeverity(Run(actions).alerts, key) == Some(Last(samples).status)
  {
    if actions != [] {
      var before, action := Front(actions), Last(actions);
      assert actions[|actions| - 1] == action;
      assert forall i :: 0 <= i < |before| ==> before[i] == actions[i];
      SeverityIsNewest(before, key);
      RunRemembers(before, key);
      var w, w' := Run(before), Run(actions);
      if action.Check? {
        var status := RuleStatus(action.rule, action.value);
        CheckKeepsUnique(w, CheckKey(action), Interval(action.rule), status, action.value, action.at, action.fault);
        if CheckKey(action) != key {
          CheckFrame(w, CheckKey(action), Interval(action.rule), status, action.value, action.at, action.fault, key);
        } else if !Late(w, key, action.at) {
          CheckEffect(w, key, Interval(action.rule), status, action.value, action.at, NoFault);
        }
      } else {
        NothingOpens(w, w', key);
      }
    }
  }

  /** Without a check no alert opens or changes its severity, so an open one is as before. */
  lemma NothingOpens(w: World, w': World, key: Key)
    requires UniqueOpen(w.alerts) && |w'.alerts| == |w.alerts|
    requires forall i :: 0 <= i < |w.alerts| ==>
      && w'.alerts[i].key == w.alerts[i].key && w'.alerts[i].severity == w.alerts[i].severity
      && (IsOpen(w'.alerts[i]) ==> IsOpen(w.alerts[i]))
    ensures UniqueOpen(w'.alerts)
    ensures OpenAlert(w'.alerts, key).Some? ==> OpenSeverity(w'.alerts, key) == OpenSeverity(w.alerts, key)
  {
    var id := OpenAlert(w'.alerts, key);
    if id.Some? {
      OpenAlertIs(w.alerts, key, id.value);
    }
  }

  /** Checking the last processed sample again right after a restart sends nothing. */
  lemma RecheckAfterRestartIsSilent(actions: seq<Action>, again: Action)
    requires again.Check? && Unedited(actions, CheckKey(again))
    requires Samples(actions, CheckKey(again)) != []
    requires RuleStatus(again.rule, again.value) == Last(Samples(actions, CheckKey(again))).status
    ensures Run(actions + [Restart] + [again]).notices == Run(actions).notices
  {
    SeverityIsNewest(actions, CheckKey(again));
    RunOneMore(actions, Restart);
    RunOneMore(actions + [Restart], again);
  }
}
