/** What the notification channels are told about an alert, over its whole life. */
module AlertNotices {
  import opened Basics
  import opened Alerting
  import opened AlertHistory

  // ---------------------------------------------------------------- notices of one alert

  function NoticesOf(notices: seq<Notice>, alert: nat): seq<Notice> {
    if notices == [] then []
    else NoticesOf(Front(notices), alert) + if Last(notices).alert == alert then [Last(notices)] else []
  }

  /** Opened first, then changes that each name another severity than the notice before, and at
      most one resolution, at the end. */
  ghost predicate WellTold(story: seq<Notice>) {
    forall j :: 0 <= j < |story| ==>
      && (story[j].kind.Opened? <==> j == 0)
      && (story[j].kind.Changed? ==> story[j].severity != story[j - 1].severity)
      && (story[j].kind.Resolved? ==> j == |story| - 1)
  }

  /** What is left of that when answers of the store are lost: an opening can only come first and a
      resolution only last. */
  ghost predicate InOrder(story: seq<Notice>) {
    forall j :: 0 <= j < |story| ==> (story[j].kind.Opened? ==> j == 0) && (story[j].kind.Resolved? ==> j == |story| - 1)
  }

  /** An alert's story so far: it is not resolved while the alert is open. When every answer about the
      alert was `heard` it is well told, and the last severity told is the alert's. */
  ghost predicate StoryOf(story: seq<Notice>, alert: Alert, heard: bool) {
    && InOrder(story) && (story != [] && Last(story).kind.Resolved? ==> !IsOpen(alert))
    && (heard ==> story != [] && WellTold(story) && (!Last(story).kind.Resolved? ==> Last(story).severity == alert.severity))
  }

  /** The stories of all alerts, but for those some answer was lost about. */
  ghost predicate Storied(w: World, lost: set<nat>) {
    && (forall id :: 0 <= id < |w.alerts| ==> StoryOf(NoticesOf(w.notices, id), w.alerts[id], id !in lost))
    && (forall id :: |w.alerts| <= id ==> NoticesOf(w.notices, id) == [])
  }

  // ---------------------------------------------------------------- answers that are lost

  predicate LosesAnswer(action: Action) {
    (action.Check? && action.fault.AnswerLost?) || (action.ResolveGone? && !action.heard)
  }

  function Rewritten(before: seq<Alert>, after: seq<Alert>): set<nat> {
    set id: nat | id < |after| && (id < |before| ==> after[id] != before[id])
  }

  /** The alerts that were written to in a run without an answer. */
  function Unheard(actions: seq<Action>): set<nat> {
    if actions == [] then {}
    else
      var before := Unheard(Front(actions));
      if LosesAnswer(Last(actions)) then before + Rewritten(Run(Front(actions)).alerts, Run(actions).alerts) else before
  }

  // ---------------------------------------------------------------- what each step tells

  /** One more notice, about an open or a new alert, with the alert left as the notice says. */
  ghost predicate Tells(w: World, w': World, notice: Notice) {
    && w'.notices == w.notices + [notice]
    && |w.alerts| <= |w'.alerts| && notice.alert < |w'.alerts|
    && (forall id :: 0 <= id < |w.alerts| && id != notice.alert ==> w'.alerts[id] == w.alerts[id])
    && match notice.kind
       case Opened => notice.alert == |w.alerts| == |w'.alerts| - 1 && w'.alerts[notice.alert].severity == notice.severity
       case Changed =>
         && |w'.alerts| == |w.alerts| && IsOpen(w.alerts[notice.alert])
         && w.alerts[notice.alert].severity != notice.severity == w'.alerts[notice.alert].severity
       case Resolved => |w'.alerts| == |w.alerts| && IsOpen(w.alerts[notice.alert]) && !IsOpen(w'.alerts[notice.alert])
  }

  lemma TellingKeepsStories(w: World, w': World, lost: set<nat>, notice: Notice)
    requires Storied(w, lost) && Tells(w, w', notice)
    ensures Storied(w', lost)
  {
    forall id: nat
      ensures NoticesOf(w'.notices, id) == if id == notice.alert then NoticesOf(w.notices, id) + [notice] else NoticesOf(w.notices, id)
    {
      NoticesOneMore(w.notices, notice, id);
    }
    var told := notice.alert;
    if notice.kind.Opened? {
      FirstNotice(notice, w'.alerts[told], told !in lost);
    } else {
      NextNotice(NoticesOf(w.notices, told), w.alerts[told], notice, w'.alerts[told], told !in lost);
    }
  }

  lemma NoticesOneMore(notices: seq<Notice>, notice: Notice, id: nat)
    ensures NoticesOf(notices + [notice], id) == if id == notice.alert then NoticesOf(notices, id) + [notice] else NoticesOf(notices, id)
  {
    assert Front(notices + [notice]) == notices && Last(notices + [notice]) == notice;
    assert NoticesOf(notices, id) + [] == NoticesOf(notices, id);
  }

  lemma FirstNotice(notice: Notice, alert: Alert, heard: bool)
    requires notice.kind.Opened? && alert.severity == notice.severity
    ensures StoryOf([] + [notice], alert, heard)
  {
  }

  /** A story goes on with a change to another severity or with the resolution of an open alert. */
  lemma NextNotice(story: seq<Notice>, alert: Alert, notice: Notice, after: Alert, heard: bool)
    requires StoryOf(story, alert, heard) && IsOpen(alert) && !notice.kind.Opened?
    requires notice.kind.Changed? ==> alert.severity != notice.severity == after.severity
    requires notice.kind.Resolved? ==> !IsOpen(after)
    ensures StoryOf(story + [notice], after, heard)
  {
    var longer := story + [notice];
    assert longer[|story|] == notice && forall j :: 0 <= j < |story| ==> longer[j] == story[j];
  }

  /** Without a notice, alerts may be renamed or resolved, but keep their severity. What else changes is
      lost. */
  lemma SilenceKeepsStories(w: World, w': World, lost: set<nat>, lost': set<nat>)
    requires Storied(w, lost) && w'.notices == w.notices && |w.alerts| <= |w'.alerts| && lost <= lost'
    requires forall id: nat :: |w.alerts| <= id < |w'.alerts| ==> id in lost'
    requires forall id :: 0 <= id < |w.alerts| ==>
      && (IsOpen(w'.alerts[id]) ==> IsOpen(w.alerts[id]))
      && (id !in lost' ==> w'.alerts[id].severity == w.alerts[id].severity)
    ensures Storied(w', lost')
  {
    forall id | 0 <= id < |w'.alerts| ensures StoryOf(NoticesOf(w'.notices, id), w'.alerts[id], id !in lost') {
      assert id < |w.alerts| ==> StoryOf(NoticesOf(w.notices, id), w.alerts[id], id !in lost);
    }
  }

  lemma ActTells(w: World, open: Option<nat>, key: Key, interval: int, status: Status, value: real, at: int, fault: Fault)
    requires Finds(w.alerts, key, open)
    ensures var w' := ActOn(w, open, key, interval, status, value, at, fault);
            if w'.notices != w.notices then !fault.AnswerLost? && |w'.notices| > 0 && Tells(w, w', Last(w'.notices))
            else |w.alerts| <= |w'.alerts| && (!fault.AnswerLost? ==> w'.alerts == w.alerts)
                 && (forall id :: 0 <= id < |w.alerts| ==> IsOpen(w'.alerts[id]) ==> IsOpen(w.alerts[id]))
  {
  }

  lemma CheckKeepsStories(w: World, lost: set<nat>, key: Key, interval: int, status: Status, value: real, at: int, fault: Fault)
    requires Storied(w, lost)
    ensures var w' := CheckSample(w, key, interval, status, value, at, fault);
            Storied(w', if fault.AnswerLost? then lost + Rewritten(w.alerts, w'.alerts) else lost)
  {
    if !Late(w, key, at) && !fault.ReadFault? {
      var w1, w' := w.(checked := w.checked[key := at]), CheckSample(w, key, interval, status, value, at, fault);
      ActTells(w1, OpenAlert(w.alerts, key), key, interval, status, value, at, fault);
      assert Storied(w1, lost);
      if w'.notices == w.notices {
        SilenceKeepsStories(w1, w', lost, if fault.AnswerLost? then lost + Rewritten(w.alerts, w'.alerts) else lost);
      } else {
        TellingKeepsStories(w1, w', lost, Last(w'.notices));
      }
    } else {
      SilenceKeepsStories(w, CheckSample(w, key, interval, status, value, at, fault), lost, lost + Rewritten(w.alerts, w.alerts));
      assert Rewritten(w.alerts, w.alerts) == {} && lost + {} == lost;
    }
  }

  lemma GoneKeepsStories(w: World, lost: set<nat>, rule: Rule, id: nat, at: int, heard: bool)
    requires Storied(w, lost)
    ensures var w' := GoneStep(w, rule, id, at, heard);
            Storied(w', if heard then lost else lost + Rewritten(w.alerts, w'.alerts))
  {
    var w' := GoneStep(w, rule, id, at, heard);
    if w'.notices != w.notices {
      TellingKeepsStories(w, w', lost, Last(w'.notices));
    } else {
      SilenceKeepsStories(w, w', lost, if heard then lost else lost + Rewritten(w.alerts, w'.alerts));
    }
  }

  lemma StepKeepsStories(w: World, lost: set<nat>, action: Action)
    requires Storied(w, lost)
    ensures Storied(Step(w, action), if LosesAnswer(action) then lost + Rewritten(w.alerts, Step(w, action).alerts) else lost)
  {
    match action
    case Check(rule, _, _, value, at, fault) =>
      CheckKeepsStories(w, lost, CheckKey(action), Interval(rule), RuleStatus(rule, value), value, at, fault);
    case ResolveGone(rule, id, at, heard) => GoneKeepsStories(w, lost, rule, id, at, heard);
    case ImportRules(rules) =>
      ImportKeepsMemory(w, rules);
      SilenceKeepsStories(w, Step(w, action), lost, lost);
    case _ => SilenceKeepsStories(w, Step(w, action), lost, lost);
  }

  /** Over every run, with rule edits on the dashboard that resolve alerts between checks, the notices of
      each alert are well told, unless the answer to a write to that alert was lost. Even then an opening
      only comes first and a resolution only last. */
  lemma {:induction false} EveryStoryIsWellTold(actions: seq<Action>)
    ensures Storied(Run(actions), Unheard(actions))
  {
    if actions != [] {
      EveryStoryIsWellTold(Front(actions));
      StepKeepsStories(Run(Front(actions)), Unheard(Front(actions)), Last(actions));
    }
  }

  /** One lost answer: an alert is open that nobody was told about, and its first notice is a change. */
  lemma LostAnswerHidesOpening(key: Key)
    ensures var w1 := CheckSample(EMPTY, key, 0, Warning, 60.0, 1, NoFault);
            var w2 := CheckSample(w1, key, 0, Warning, 60.0, 2, AnswerLost);
            var w3 := CheckSample(w2, key, 0, Critical, 90.0, 3, NoFault);
            && OpenAlert(w2.alerts, key) == Some(0) && w2.notices == []
            && w3.notices == [Notice(0, key, Kind.Changed, Critical, 90.0, 3)]
  {
    var w1 := CheckSample(EMPTY, key, 0, Warning, 60.0, 1, NoFault);
    assert w1 == EMPTY.(checked := map[key := 1], pending := map[key := Pending(Warning, 1)]);
    OpensUnheard(w1, key);
    ChangesAfter(CheckSample(w1, key, 0, Warning, 60.0, 2, AnswerLost), key);
  }

  lemma OpensUnheard(w: World, key: Key)
    requires w.alerts == [] && w.notices == [] && key in w.checked && w.checked[key] == 1
    requires key in w.pending && w.pending[key] == Pending(Warning, 1)
    ensures var w' := CheckSample(w, key, 0, Warning, 60.0, 2, AnswerLost);
            w'.alerts == [Alert(key, Warning, 60.0, 2, 2, None)] && w'.notices == [] && key in w'.checked && w'.checked[key] == 2
  {
    assert OpenAlert([], key) == None;
  }

  lemma ChangesAfter(w: World, key: Key)
    requires w.alerts == [Alert(key, Warning, 60.0, 2, 2, None)] && w.notices == [] && key in w.checked && w.checked[key] == 2
    ensures OpenAlert(w.alerts, key) == Some(0)
    ensures CheckSample(w, key, 0, Critical, 90.0, 3, NoFault).notices == [Notice(0, key, Kind.Changed, Critical, 90.0, 3)]
  {
    assert OpenAlert(w.alerts, key) == Some(0);
  }
}
