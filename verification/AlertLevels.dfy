/** What a rule's thresholds mean, said once for all its operators. */
module AlertLevels {
  import opened Basics
  import opened Alerting
  import opened AlertRules
  import opened AlertHistory

  /** Whether a value is past a threshold, by the rule's operator. */
  predicate Past(op: Op, value: real, threshold: real) {
    match op
    case Equal => value == threshold
    case NotEqual => value != threshold
    case Above => value > threshold
    case Below => value < threshold
    case AtLeast => value >= threshold
    case AtMost => value <= threshold
    case _ => false
  }

  function Rank(status: Status): int {
    match status
    case Normal => 0
    case Warning => 1
    case Critical => 2
  }

  /** Services are only up or down, so their rules have one level and no thresholds. */
  predicate IsCritical(rule: Rule, value: real) {
    if rule.op.Inactive? then value == 0.0
    else if rule.op.Active? then value == 1.0
    else Past(rule.op, value, rule.critical as real)
  }

  /** The critical level goes before the warning one, and past neither is normal. */
  lemma LevelsAre(rule: Rule, value: real)
    ensures GetAlertType(rule, value).Critical? <==> IsCritical(rule, value)
    ensures GetAlertType(rule, value).Warning? <==> Past(rule.op, value, rule.warn as real) && !IsCritical(rule, value)
  {
  }

  /** Going further in the direction a rule alerts on never makes a value less severe, whatever the
      two thresholds are. */
  lemma FurtherIsNoLessSevere(rule: Rule, value: real, further: real)
    requires ((rule.op.Above? || rule.op.AtLeast?) && value <= further) || ((rule.op.Below? || rule.op.AtMost?) && further <= value)
    ensures Rank(GetAlertType(rule, value)) <= Rank(GetAlertType(rule, further))
  {
  }

  /** A rule can warn at all exactly when its warning threshold is reached before its critical one. */
  lemma CanWarnIff(rule: Rule)
    ensures (exists value :: GetAlertType(rule, value).Warning?) <==>
            match rule.op {
              case Equal => rule.warn != rule.critical
              case NotEqual => rule.warn != rule.critical
              case Above => rule.warn < rule.critical
              case AtLeast => rule.warn < rule.critical
              case Below => rule.critical < rule.warn
              case AtMost => rule.critical < rule.warn
              case _ => false
            }
  {
    assert GetAlertType(rule, rule.critical as real).Warning? || GetAlertType(rule, rule.warn as real).Warning?
           || forall value :: !GetAlertType(rule, value).Warning?;
  }

  // ---------------------------------------------------------------- certificates

  ghost predicate LastIsNewest(samples: seq<Sample>) {
    forall i :: 0 <= i < |samples| ==> samples[i].at <= samples[|samples| - 1].at
  }

  lemma {:induction false} NewestIsLast(actions: seq<Action>, key: Key)
    ensures LastIsNewest(Samples(actions, key))
  {
    if actions != [] {
      NewestIsLast(Front(actions), key);
      var before, samples := Samples(Front(actions), key), Samples(actions, key);
      if samples != before && samples != [] {
        assert Front(samples) == before;
        assert forall i :: 0 <= i < |before| ==> samples[i] == before[i];
      }
    }
  }

  /** A pending breach of a reached state began at an earlier sample that was breached. */
  ghost predicate BreachedBefore(samples: seq<Sample>) {
    exists b :: 0 <= b < |samples| && IsRead(samples[b]) && Breached(samples[b])
                && forall j :: b <= j < |samples| && IsRead(samples[j]) ==> Breached(samples[j])
  }

  lemma PendingIsEarlier(actions: seq<Action>, key: Key)
    requires key in Run(actions).pending
    ensures key in Run(actions).checked && Run(actions).pending[key].since <= Run(actions).checked[key]
    ensures !Run(actions).pending[key].status.Normal? ==> BreachedBefore(Samples(actions, key))
  {
    RunRemembers(actions, key);
    NewestIsLast(actions, key);
    var pending, samples := Run(actions).pending[key], Samples(actions, key);
    var b :| 0 <= b < |samples| && IsRead(samples[b]) && samples[b].at == pending.since
             && forall j :: b <= j < |samples| && IsRead(samples[j]) ==> Breached(samples[j]) == !pending.status.Normal?;
  }

  /** In every reached state, a check of a certificate below a level opens an alert exactly when none
      is open and a breach is pending, which takes an earlier check below a level with only such
      since. Otherwise, with none open, the breach is pending from then on. So it is never the first
      check below a level that alerts. */
  lemma CertificateAlertsOnSecondCheck(actions: seq<Action>, rule: Rule, host: string, target: string, days: real, at: int)
    requires CertificateRule(rule).Some? && !RuleStatus(CertificateRule(rule).value, days).Normal?
    requires !Late(Run(actions), Key(host, rule.name, Certificate, target), at)
    ensures var key, w := Key(host, rule.name, Certificate, target), Run(actions);
            var w' := CheckStep(w, CertificateRule(rule).value, host, target, days, at, NoFault);
            var pending := key in w.pending && !w.pending[key].status.Normal?;
            && (|w'.alerts| > |w.alerts| <==> OpenAlert(w.alerts, key).None? && pending)
            && (pending ==> BreachedBefore(Samples(actions, key)))
            && (OpenAlert(w.alerts, key).None? && !pending ==>
                  && w'.notices == w.notices && key in w'.pending
                  && w'.pending[key] == Pending(RuleStatus(CertificateRule(rule).value, days), at))
  {
    var key, w := Key(host, rule.name, Certificate, target), Run(actions);
    RunRemembers(actions, key);
    if key in w.pending {
      PendingIsEarlier(actions, key);
    }
    var c := CertificateRule(rule).value;
    CheckExtends(w, key, Interval(c), RuleStatus(c, days), days, at, NoFault);
  }
}
