/** What each kind of rule takes for a problem, said by what is watched, and what that means over runs:
    an endpoint that answers as it should never alerts, and one that does not for long enough does. */
module AlertStatus {
  import opened Basics
  import opened Alerting
  import opened AlertRules
  import opened AlertHistory

  /** The code an endpoint rule waits for is the one it names, or 200. */
  lemma EndpointStatusIs(rule: Rule, code: int)
    requires rule.metric.Endpoint?
    ensures RuleStatus(rule, code as real)
         == if code == (if rule.expectedCode == 0 then 200 else rule.expectedCode) then Normal else Critical
  {
    assert (code as real).Floor == code && (-(code as real)).Floor == -code;
  }

  /** A host is critical exactly when it has been silent for longer than the rule's interval. */
  lemma SilenceStatusIs(rule: Rule, seconds: real)
    requires rule.metric.Ping?
    ensures RuleStatus(rule, seconds) == if seconds > rule.triggerInterval as real then Critical else Normal
  {
  }

  /** A count of Kubernetes problems is critical exactly when there is one. */
  lemma TroubleStatusIs(rule: Rule, count: int)
    requires rule.metric.KubeNode? || rule.metric.KubeWorkload? || rule.metric.KubePending?
    ensures RuleStatus(rule, count as real) == if count >= 1 then Critical else Normal
  {
  }

  /** Everything else goes by the rule's levels. */
  lemma LevelStatusIs(rule: Rule, value: real)
    requires rule.metric.Measured? || rule.metric.Certificate? || rule.metric.KubeRestarts?
    ensures RuleStatus(rule, value) == GetAlertType(rule, value)
  {
  }

  /** A fraction is cut off towards zero. */
  lemma TruncatedIs(value: real)
    ensures value >= 0.0 ==> Truncated(value) as real <= value < (Truncated(value) + 1) as real
    ensures value < 0.0 ==> (Truncated(value) - 1) as real < value <= Truncated(value) as real
  {
  }

  /** A certificate is critical below its critical days and else warns below its warning days. Only an
      endpoint rule with some level watches one, under its own name and URL. */
  lemma CertificateStatusIs(rule: Rule, days: real)
    ensures CertificateRule(rule).Some? <==> rule.metric.Endpoint? && (rule.certWarn != 0 || rule.certCritical != 0)
    ensures CertificateRule(rule).Some? ==>
              var c := CertificateRule(rule).value;
              && c.name == rule.name && c.metric.Certificate? && RuleTarget(c) == rule.endpoint && Interval(c) == 0
              && (RuleStatus(c, days).Critical? <==> days < rule.certCritical as real)
              && (RuleStatus(c, days).Warning? <==> rule.certCritical as real <= days < rule.certWarn as real)
  {
  }

  /** A rule on disks watches the disk it names, one on services the service, and one on an endpoint or
      its certificate the URL. Other rules have no target of their own. */
  lemma TargetIs(rule: Rule)
    ensures rule.metric.Endpoint? || rule.metric.Certificate? ==> RuleTarget(rule) == rule.endpoint
    ensures rule.metric.Measured? ==>
              RuleTarget(rule) == if rule.metric.name in {"disks", "disk_forecast"} then rule.disk
                                  else if rule.metric.name == "services" then rule.service else ""
    ensures rule.metric.Ping? || IsKube(rule.metric) ==> RuleTarget(rule) == ""
  {
  }

  /** Trigger intervals are in seconds, and times in nanoseconds. */
  lemma IntervalIs(rule: Rule)
    ensures Interval(rule) == rule.triggerInterval * 1_000_000_000
  {
  }

  // ---------------------------------------------------------------- quiet runs

  /** Every check of a key finds it normal. */
  predicate AllNormal(actions: seq<Action>, key: Key) {
    forall i :: 0 <= i < |actions| && actions[i].Check? && CheckKey(actions[i]) == key ==>
      RuleStatus(actions[i].rule, actions[i].value).Normal?
  }

  lemma {:induction false} SamplesAreNormal(actions: seq<Action>, key: Key)
    requires AllNormal(actions, key)
    ensures forall k :: 0 <= k < |Samples(actions, key)| ==> !Breached(Samples(actions, key)[k])
  {
    if actions != [] {
      assert Last(actions) == actions[|actions| - 1] && forall i :: 0 <= i < |Front(actions)| ==> Front(actions)[i] == actions[i];
      SamplesAreNormal(Front(actions), key);
    }
  }

  lemma {:induction false} NormalIsQuiet(all: seq<Sample>, interval: int)
    requires forall k :: 0 <= k < |all| ==> !Breached(all[k])
    ensures Severity(ReadOf(all), interval).None? && Messages(ReadOf(all), interval) == []
  {
    if all != [] {
      var before, read := ReadOf(Front(all)), ReadOf(all);
      assert forall k :: 0 <= k < |Front(all)| ==> Front(all)[k] == all[k];
      NormalIsQuiet(Front(all), interval);
      if IsRead(Last(all)) {
        assert Front(read) == before && Last(read) == Last(all);
      }
    }
  }

  /** An endpoint that always answers the code it should never has an open alert, and nobody is told
      anything about it. */
  lemma GoodEndpointIsQuiet(actions: seq<Action>, key: Key, interval: int, code: int)
    requires Undisturbed(actions, key, interval) && key.metric.Endpoint?
    requires forall i :: 0 <= i < |actions| && CheckKey(actions[i]) == key ==>
      actions[i].value == code as real && code == (if actions[i].rule.expectedCode == 0 then 200 else actions[i].rule.expectedCode)
    ensures OpenAlert(Run(actions).alerts, key).None? && Sent(Run(actions).notices, key) == []
  {
    forall i | 0 <= i < |actions| && CheckKey(actions[i]) == key ensures RuleStatus(actions[i].rule, actions[i].value).Normal? {
      EndpointStatusIs(actions[i].rule, code);
    }
    SamplesAreNormal(actions, key);
    NormalIsQuiet(Samples(actions, key), interval);
    EvaluatorFollowsHistory(actions, key, interval);
  }

  // ---------------------------------------------------------------- runs that alert

  /** Every check of a key finds it breached. */
  predicate AllBreached(actions: seq<Action>, key: Key) {
    forall k :: 0 <= k < |actions| && actions[k].Check? && CheckKey(actions[k]) == key ==>
      !RuleStatus(actions[k].rule, actions[k].value).Normal?
  }

  /** Only checks happen, and those of the key have one trigger interval and succeed. */
  predicate Faultless(actions: seq<Action>, key: Key, interval: int) {
    Undisturbed(actions, key, interval) && forall k :: 0 <= k < |actions| && CheckKey(actions[k]) == key ==> actions[k].fault.NoFault?
  }

  ghost predicate BreachedAfter(samples: seq<Sample>, p: nat) {
    forall k :: p <= k < |samples| ==> Breached(samples[k]) && IsRead(samples[k])
  }

  /** The samples of a longer run go on from those of a shorter one, with breached ones. */
  lemma {:induction false} SamplesGoOn(start: seq<Action>, more: seq<Action>, key: Key, interval: int)
    requires Faultless(more, key, interval) && AllBreached(more, key)
    ensures Samples(start, key) <= Samples(start + more, key)
    ensures BreachedAfter(Samples(start + more, key), |Samples(start, key)|)
  {
    if more == [] {
      assert start + more == start;
    } else {
      assert more[|more| - 1] == Last(more) && forall k :: 0 <= k < |Front(more)| ==> Front(more)[k] == more[k];
      SamplesGoOn(start, Front(more), key, interval);
      assert Front(start + more) == start + Front(more) && Last(start + more) == Last(more);
    }
  }

  /** A check that counts adds its sample. */
  lemma CountedCheck(before: seq<Action>, check: Action)
    requires check.Check? && !Late(Run(before), CheckKey(check), check.at)
    ensures Samples(before + [check], CheckKey(check))
         == Samples(before, CheckKey(check)) + [Sample(RuleStatus(check.rule, check.value), check.at, check.fault)]
  {
    RunRemembers(before, CheckKey(check));
    assert Front(before + [check]) == before;
  }

  /** Breached samples from one that is not the last on, at least the interval apart. */
  lemma LastsFrom(first: seq<Sample>, s1: Sample, mid: seq<Sample>, s2: Sample, interval: int)
    requires first + [s1] <= mid && BreachedAfter(mid, |first| + 1)
    requires Breached(s1) && IsRead(s1) && Breached(s2) && IsRead(s2) && s2.at - s1.at >= interval
    ensures Lasting(mid + [s2], interval)
  {
    var all := mid + [s2];
    assert all[|first|] == s1 && SameSide(all, |first|);
  }

  lemma PartsAreBreached(first: Action, more: seq<Action>, last: Action, key: Key)
    requires AllBreached([first] + more + [last], key) && first.Check? && last.Check? && CheckKey(first) == CheckKey(last) == key
    ensures AllBreached(more, key)
    ensures !RuleStatus(first.rule, first.value).Normal? && !RuleStatus(last.rule, last.value).Normal?
  {
    var checks := [first] + more + [last];
    assert checks[0] == first && checks[|more| + 1] == last && forall k :: 0 <= k < |more| ==> checks[k + 1] == more[k];
  }

  lemma BreachLasts(start: seq<Action>, first: Action, more: seq<Action>, last: Action, interval: int)
    requires first.Check? && last.Check? && CheckKey(first) == CheckKey(last) && first.fault.NoFault? && last.fault.NoFault?
    requires Faultless(more, CheckKey(last), interval) && AllBreached([first] + more + [last], CheckKey(last))
    requires !Late(Run(start), CheckKey(first), first.at) && !Late(Run(start + [first] + more), CheckKey(last), last.at)
    requires last.at - first.at >= interval
    ensures var all := Samples(start + [first] + more + [last], CheckKey(last));
            Lasting(all, interval) && Last(all) == Sample(RuleStatus(last.rule, last.value), last.at, NoFault) && Breached(Last(all))
  {
    var key := CheckKey(last);
    PartsAreBreached(first, more, last, key);
    CountedCheck(start, first);
    SamplesGoOn(start + [first], more, key, interval);
    CountedCheck(start + [first] + more, last);
    LastsFrom(Samples(start, key), Sample(RuleStatus(first.rule, first.value), first.at, NoFault),
              Samples(start + [first] + more, key), Sample(RuleStatus(last.rule, last.value), last.at, NoFault), interval);
  }

  /** When the checks of a key find it breached from one that counts on, and the last of them counts and
      comes at least the interval later, the key has an open alert with the last one's severity. */
  lemma BreachAlerts(start: seq<Action>, first: Action, more: seq<Action>, last: Action, interval: int)
    requires first.Check? && last.Check? && CheckKey(first) == CheckKey(last)
    requires Faultless(start + [first] + more + [last], CheckKey(last), interval) && AllBreached([first] + more + [last], CheckKey(last))
    requires !Late(Run(start), CheckKey(first), first.at) && !Late(Run(start + [first] + more), CheckKey(last), last.at)
    requires last.at - first.at >= interval
    ensures OpenSeverity(Run(start + [first] + more + [last]).alerts, CheckKey(last)) == Some(RuleStatus(last.rule, last.value))
  {
    var key, before := CheckKey(last), start + [first] + more;
    var actions := before + [last];
    PartsAreFaultless(start, first, more, last, key, interval);
    BreachLasts(start, first, more, last, interval);
    AllAreRead(actions, key, interval);
    OpensAndResolvesExactlyWhen(before, last, interval);
    assert forall i :: 0 <= i < |actions| ==> actions[i].Check?;
    SeverityIsNewest(actions, key);
  }

  lemma PartsAre(start: seq<Action>, first: Action, more: seq<Action>, last: Action, actions: seq<Action>)
    requires actions == start + [first] + more + [last]
    ensures |actions| == |start| + |more| + 2 && actions[|start|] == first && actions[|start| + |more| + 1] == last
    ensures forall k :: 0 <= k < |more| ==> actions[|start| + 1 + k] == more[k]
  {
  }

  lemma PartsAreFaultless(start: seq<Action>, first: Action, more: seq<Action>, last: Action, key: Key, interval: int)
    requires Faultless(start + [first] + more + [last], key, interval) && first.Check? && last.Check?
    ensures Faultless(more, key, interval)
    ensures CheckKey(first) == key ==> first.fault.NoFault?
    ensures CheckKey(last) == key ==> last.fault.NoFault?
  {
    PartsAre(start, first, more, last, start + [first] + more + [last]);
  }

  lemma {:induction false} AllAreRead(actions: seq<Action>, key: Key, interval: int)
    requires Faultless(actions, key, interval)
    ensures ReadOf(Samples(actions, key)) == Samples(actions, key)
  {
    if actions != [] {
      var before := Front(actions);
      assert actions[|actions| - 1] == Last(actions) && forall k :: 0 <= k < |before| ==> before[k] == actions[k];
      AllAreRead(before, key, interval);
      var samples := Samples(actions, key);
      if samples != Samples(before, key) {
        assert Front(samples) == Samples(before, key);
      }
    }
  }

  /** An endpoint answers another code than it should. */
  predicate AnswersBadly(check: Action, code: int) {
    && check.Check? && check.value == code as real
    && code != (if check.rule.expectedCode == 0 then 200 else check.rule.expectedCode)
  }

  /** An endpoint that answers another code than it should, from one check to another at least the rule's
      interval in seconds later, has an open critical alert. */
  lemma BadEndpointAlerts(start: seq<Action>, first: Action, more: seq<Action>, last: Action, codes: seq<int>, seconds: nat)
    requires first.Check? && last.Check? && CheckKey(first) == CheckKey(last) && CheckKey(last).metric.Endpoint?
    requires Faultless(start + [first] + more + [last], CheckKey(last), seconds * 1_000_000_000)
    requires |codes| == |more| + 2 && AnswersBadly(first, codes[0]) && AnswersBadly(last, codes[|more| + 1])
    requires forall k :: 0 <= k < |more| && more[k].Check? && CheckKey(more[k]) == CheckKey(last) ==> AnswersBadly(more[k], codes[k + 1])
    requires !Late(Run(start), CheckKey(first), first.at) && !Late(Run(start + [first] + more), CheckKey(last), last.at)
    requires last.at - first.at >= seconds * 1_000_000_000
    ensures OpenSeverity(Run(start + [first] + more + [last]).alerts, CheckKey(last)) == Some(Critical)
  {
    BadAnswersBreach(first, more, last, codes);
    BreachAlerts(start, first, more, last, seconds * 1_000_000_000);
  }

  lemma BadAnswersBreach(first: Action, more: seq<Action>, last: Action, codes: seq<int>)
    requires first.Check? && last.Check? && CheckKey(first) == CheckKey(last) && CheckKey(last).metric.Endpoint?
    requires |codes| == |more| + 2 && AnswersBadly(first, codes[0]) && AnswersBadly(last, codes[|more| + 1])
    requires forall k :: 0 <= k < |more| && more[k].Check? && CheckKey(more[k]) == CheckKey(last) ==> AnswersBadly(more[k], codes[k + 1])
    ensures AllBreached([first] + more + [last], CheckKey(last)) && RuleStatus(last.rule, last.value).Critical?
  {
    var checks, key := [first] + more + [last], CheckKey(last);
    EndpointStatusIs(last.rule, codes[|more| + 1]);
    forall k | 0 <= k < |checks| && checks[k].Check? && CheckKey(checks[k]) == key
      ensures !RuleStatus(checks[k].rule, checks[k].value).Normal?
    {
      assert checks[k] == if k == 0 then first else if k == |more| + 1 then last else more[k - 1];
      EndpointStatusIs(checks[k].rule, codes[k]);
    }
  }
}
