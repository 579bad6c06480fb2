/** Whom a rule tells, as laws on the channels picked for an opening or a change: what each way of
    choosing reaches alone, and what one more tick or name adds. */
module ChannelChoice {
  import opened Basics
  import opened Alerting
  import opened NoticeQueue

  /** A channel takes a message of a severity: it is enabled, and one that skips warnings takes only
      what is critical. */
  predicate Takes(c: Channel, severity: Status) {
    c.enabled && (c.skipWarnings ==> severity == Critical)
  }

  predicate PicksNone(choice: Choice) {
    choice == Choice([], false, false, false)
  }

  /** A choice of every channel of one kind, and of nothing else. Webhooks have no tick. */
  predicate TicksOnly(choice: Choice, kind: ChannelKind) {
    match kind
    case Email => choice == Choice([], true, false, false)
    case Slack => choice == Choice([], false, true, false)
    case PagerDuty => choice == Choice([], false, false, true)
    case Webhook => false
  }

  /** A choice with one more kind ticked. */
  predicate TicksMore(choice: Choice, kind: ChannelKind, more: Choice) {
    match kind
    case Email => more == Choice(choice.channels, true, choice.slack, choice.pagerDuty)
    case Slack => more == Choice(choice.channels, choice.email, true, choice.pagerDuty)
    case PagerDuty => more == Choice(choice.channels, choice.email, choice.slack, true)
    case Webhook => false
  }

  /** A rule that names and ticks nothing reaches exactly the default channels. */
  lemma NoChoiceReachesDefaults(choice: Choice, channels: seq<Channel>, event: Kind, severity: Status, told: set<nat>, id: nat)
    requires !event.Resolved? && PicksNone(choice)
    ensures id in PickedChannels(choice, channels, event, severity, told) <==>
              exists c :: c in channels && c.id == id && c.isDefault && Takes(c, severity)
  {
    assert forall c :: Hears(choice, c, event, severity, told) <==> c.isDefault && Takes(c, severity);
  }

  /** One tick alone reaches exactly the channels of its kind. */
  lemma TickReachesItsKind(choice: Choice, kind: ChannelKind, channels: seq<Channel>, event: Kind, severity: Status,
                           told: set<nat>, id: nat)
    requires !event.Resolved? && TicksOnly(choice, kind)
    ensures id in PickedChannels(choice, channels, event, severity, told) <==>
              exists c :: c in channels && c.id == id && c.kind == kind && Takes(c, severity)
  {
    assert forall c :: Hears(choice, c, event, severity, told) <==> c.kind == kind && Takes(c, severity);
  }

  /** Names alone reach exactly the channels of those names, whatever their kind. */
  lemma NamesReachTheNamed(choice: Choice, names: seq<string>, channels: seq<Channel>, event: Kind, severity: Status,
                           told: set<nat>, id: nat)
    requires !event.Resolved? && names != [] && choice == Choice(names, false, false, false)
    ensures id in PickedChannels(choice, channels, event, severity, told) <==>
              exists c :: c in channels && c.id == id && c.name in names && Takes(c, severity)
  {
    assert forall c :: Hears(choice, c, event, severity, told) <==> c.name in names && Takes(c, severity);
  }

  /** One more tick on a rule that chooses something adds the channels of that kind, and takes none away. */
  lemma TickAddsItsKind(choice: Choice, kind: ChannelKind, more: Choice, channels: seq<Channel>, event: Kind,
                        severity: Status, told: set<nat>, id: nat)
    requires !event.Resolved? && !PicksNone(choice) && TicksMore(choice, kind, more)
    ensures id in PickedChannels(more, channels, event, severity, told) <==>
              || id in PickedChannels(choice, channels, event, severity, told)
              || exists c :: c in channels && c.id == id && c.kind == kind && Takes(c, severity)
  {
    assert forall c :: Hears(more, c, event, severity, told)
                  <==> Hears(choice, c, event, severity, told) || (c.kind == kind && Takes(c, severity));
  }

  /** One more name on a rule that chooses something adds the channels of that name, and takes none away. */
  lemma NameAddsTheNamed(choice: Choice, name: string, more: Choice, channels: seq<Channel>, event: Kind,
                         severity: Status, told: set<nat>, id: nat)
    requires !event.Resolved? && !PicksNone(choice)
    requires more == Choice(choice.channels + [name], choice.email, choice.slack, choice.pagerDuty)
    ensures id in PickedChannels(more, channels, event, severity, told) <==>
              || id in PickedChannels(choice, channels, event, severity, told)
              || exists c :: c in channels && c.id == id && c.name == name && Takes(c, severity)
  {
    assert forall c: Channel :: c.name in more.channels <==> c.name in choice.channels || c.name == name;
    assert forall c :: Hears(more, c, event, severity, told)
                  <==> Hears(choice, c, event, severity, told) || (c.name == name && Takes(c, severity));
  }

  /** A resolution is for exactly the enabled channels that were told, whatever the rule chooses now and
      also where warnings are skipped. */
  lemma ResolutionReachesTheTold(choice: Choice, channels: seq<Channel>, severity: Status, told: set<nat>, id: nat)
    ensures id in PickedChannels(choice, channels, Resolved, severity, told) <==>
              id in told && exists c :: c in channels && c.id == id && c.enabled
  {
    assert forall c :: Hears(choice, c, Resolved, severity, told) <==> c.id in told && c.enabled;
  }

  /** The picked channels come in the order of the channel list. */
  lemma {:induction false} PickedInOrder(choice: Choice, channels: seq<Channel>, event: Kind, severity: Status, told: set<nat>,
                                         i: nat, j: nat, a: nat, b: nat)
    requires DistinctIds(channels) && i < j < |PickedChannels(choice, channels, event, severity, told)|
    requires a < |channels| && channels[a].id == PickedChannels(choice, channels, event, severity, told)[i]
    requires b < |channels| && channels[b].id == PickedChannels(choice, channels, event, severity, told)[j]
    ensures a < b
  {
    var picked, before := PickedChannels(choice, channels, event, severity, told),
                          PickedChannels(choice, Front(channels), event, severity, told);
    PickedDistinct(choice, channels, event, severity, told);
    assert picked[i] != picked[j] && picked[i] in before;
    var c :| c in Front(channels) && c.id == picked[i];
    assert forall k :: 0 <= k < |Front(channels)| ==> Front(channels)[k] == channels[k];
    assert a < |channels| - 1;
    if b < |channels| - 1 {
      PickedInOrder(choice, Front(channels), event, severity, told, i, j, a, b);
    }
  }

  /** What is queued about an opening or a change: one entry for each channel picked, with the notice's
      kind and severity. */
  lemma NoticeIsQueuedOnce(entries: seq<Entry>, notice: Notice, choice: Choice, channels: seq<Channel>, alert: nat, channel: nat)
    requires !notice.kind.Resolved? && DistinctIds(channels)
    ensures EntriesFor(QueueNotice(entries, notice, choice, channels), alert, channel)
         == EntriesFor(entries, alert, channel)
            + if alert == notice.alert && channel in PickedChannels(choice, channels, notice.kind, notice.severity, {})
              then [Entry(alert, channel, notice.kind, notice.severity)] else []
  {
    PickedDistinct(choice, channels, notice.kind, notice.severity, {});
    QueueAddsOne(entries, notice, PickedChannels(choice, channels, notice.kind, notice.severity, {}), alert, channel);
  }
}
