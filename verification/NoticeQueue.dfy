/** Who hears about an alert. Each notice is queued for the channels that want it; a resolution goes
    to the channels that were told about the alert before. */
module NoticeQueue {
  import opened Basics
  import opened Alerting
  import opened AlertNotices

  datatype ChannelKind = Email | Slack | PagerDuty | Webhook

  datatype Channel = Channel(
    id: nat, name: string, kind: ChannelKind, isDefault: bool, skipWarnings: bool, enabled: bool)

  /** Where a rule sends: to channels it names, or to every channel of a kind. */
  datatype Choice = Choice(channels: seq<string>, email: bool, slack: bool, pagerDuty: bool)

  predicate RuleWants(choice: Choice, channel: Channel) {
    || channel.name in choice.channels
    || (channel.kind.Email? && choice.email)
    || (channel.kind.Slack? && choice.slack)
    || (channel.kind.PagerDuty? && choice.pagerDuty)
    || (choice.channels == [] && !choice.email && !choice.slack && !choice.pagerDuty && channel.isDefault)
  }

  predicate Hears(choice: Choice, channel: Channel, kind: Kind, severity: Status, told: set<nat>) {
    && channel.enabled
    && if kind.Resolved? then channel.id in told
       else RuleWants(choice, channel) && !(channel.skipWarnings && !severity.Critical?)
  }

  /** The ids of the channels that hear about an event, in the order of the channel list. */
  function PickedChannels(choice: Choice, channels: seq<Channel>, kind: Kind, severity: Status,
                          told: set<nat>): (picked: seq<nat>)
    ensures forall id :: id in picked <==>
      exists c :: c in channels && c.id == id && Hears(choice, c, kind, severity, told)
  {
    if channels == [] then []
    else
      var before := PickedChannels(choice, Front(channels), kind, severity, told);
      assert channels == Front(channels) + [Last(channels)];
      if Hears(choice, Last(channels), kind, severity, told) then before + [Last(channels).id] else before
  }

  method PickChannels(choice: Choice, channels: seq<Channel>, kind: Kind, severity: Status,
                      told: set<nat>) returns (picked: seq<nat>)
    ensures picked == PickedChannels(choice, channels, kind, severity, told)
  {
    picked := [];
    for i := 0 to |channels|
      invariant picked == PickedChannels(choice, channels[..i], kind, severity, told)
    {
      var channel := channels[i];
      assert Front(channels[..i + 1]) == channels[..i];
      if !channel.enabled {
        continue;
      }
      if kind.Resolved? {
        if channel.id in told {
          picked := picked + [channel.id];
        }
        continue;
      }
      if !RuleWants(choice, channel) {
        continue;
      }
      if channel.skipWarnings && !severity.Critical? {
        continue;
      }
      picked := picked + [channel.id];
    }
    assert channels[..|channels|] == channels;
  }

  // ---------------------------------------------------------------- the queue

  datatype Entry = Entry(alert: nat, channel: nat, kind: Kind, severity: Status)

  function NotifiedChannels(entries: seq<Entry>, alert: nat): set<nat> {
    set e | e in entries && e.alert == alert :: e.channel
  }

  function QueueNotifications(entries: seq<Entry>, notice: Notice, channels: seq<nat>): seq<Entry> {
    if channels == [] then entries
    else QueueNotifications(entries, notice, Front(channels)) + [Entry(notice.alert, Last(channels), notice.kind, notice.severity)]
  }

  function QueueNotice(entries: seq<Entry>, notice: Notice, choice: Choice, channels: seq<Channel>): seq<Entry> {
    var told := if notice.kind.Resolved? then NotifiedChannels(entries, notice.alert) else {};
    QueueNotifications(entries, notice, PickedChannels(choice, channels, notice.kind, notice.severity, told))
  }

  function Without(entries: seq<Entry>, channel: nat): seq<Entry> {
    if entries == [] then []
    else Without(Front(entries), channel) + if Last(entries).channel == channel then [] else [Last(entries)]
  }

  /** A notice meets the channels as they are at that moment, and its queueing may fail as a whole.
      Deleting a channel deletes what was queued for it. */
  datatype QueueAction =
    | Tell(notice: Notice, choice: Choice, channels: seq<Channel>, fails: bool)
    | DeleteChannel(channel: nat)

  function QueueStep(entries: seq<Entry>, action: QueueAction): seq<Entry> {
    match action
    case Tell(notice, choice, channels, fails) => if fails then entries else QueueNotice(entries, notice, choice, channels)
    case DeleteChannel(channel) => Without(entries, channel)
  }

  function Queued(actions: seq<QueueAction>): seq<Entry> {
    if actions == [] then [] else QueueStep(Queued(Front(actions)), Last(actions))
  }

  function ToldIn(actions: seq<QueueAction>): seq<Notice> {
    if actions == [] then []
    else ToldIn(Front(actions)) + if Last(actions).Tell? then [Last(actions).notice] else []
  }

  /** Channel ids are unique in the channel table. */
  ghost predicate DistinctIds(channels: seq<Channel>) {
    forall i, j :: 0 <= i < j < |channels| ==> channels[i].id != channels[j].id
  }

  ghost predicate ProperTables(actions: seq<QueueAction>) {
    forall i :: 0 <= i < |actions| && actions[i].Tell? ==> DistinctIds(actions[i].channels)
  }

  // ---------------------------------------------------------------- what one channel hears of one alert

  function EntriesFor(entries: seq<Entry>, alert: nat, channel: nat): seq<Entry> {
    if entries == [] then []
    else EntriesFor(Front(entries), alert, channel)
         + if Last(entries).alert == alert && Last(entries).channel == channel then [Last(entries)] else []
  }

  /** Something that is not a resolution first, and at most one resolution, at the end. */
  ghost predicate Coherent(heard: seq<Entry>) {
    forall j :: 0 <= j < |heard| && heard[j].kind.Resolved? ==> 0 < j == |heard| - 1
  }

  lemma {:induction false} PickedDistinct(choice: Choice, channels: seq<Channel>, kind: Kind, severity: Status, told: set<nat>)
    requires DistinctIds(channels)
    ensures Distinct(PickedChannels(choice, channels, kind, severity, told))
  {
    if channels != [] {
      PickedDistinct(choice, Front(channels), kind, severity, told);
      var before := PickedChannels(choice, Front(channels), kind, severity, told);
      assert forall i :: 0 <= i < |Front(channels)| ==> Front(channels)[i].id != Last(channels).id;
      assert Last(channels).id !in before;
    }
  }

  lemma {:induction false} QueueAddsOne(entries: seq<Entry>, notice: Notice, channels: seq<nat>, alert: nat, channel: nat)
    requires Distinct(channels)
    ensures EntriesFor(QueueNotifications(entries, notice, channels), alert, channel)
         == EntriesFor(entries, alert, channel)
            + if alert == notice.alert && channel in channels then [Entry(alert, channel, notice.kind, notice.severity)] else []
  {
    if channels != [] {
      DistinctFront(channels);
      QueueAddsOne(entries, notice, Front(channels), alert, channel);
      var before := QueueNotifications(entries, notice, Front(channels));
      assert Front(QueueNotifications(entries, notice, channels)) == before;
      assert channels == Front(channels) + [Last(channels)];
    }
  }

  lemma {:induction false} WithoutKeeps(entries: seq<Entry>, gone: nat, alert: nat, channel: nat)
    ensures EntriesFor(Without(entries, gone), alert, channel) == if channel == gone then [] else EntriesFor(entries, alert, channel)
  {
    if entries != [] {
      WithoutKeeps(Front(entries), gone, alert, channel);
      if Last(entries).channel == gone {
        assert Without(entries, gone) == Without(Front(entries), gone);
      } else {
        assert Front(Without(entries, gone)) == Without(Front(entries), gone);
      }
    }
  }

  /** A channel is counted as told exactly when something about the alert is queued for it. */
  lemma {:induction false} NotifiedIffHeard(entries: seq<Entry>, alert: nat, channel: nat)
    ensures channel in NotifiedChannels(entries, alert) <==> EntriesFor(entries, alert, channel) != []
  {
    if entries != [] {
      NotifiedIffHeard(Front(entries), alert, channel);
      assert entries == Front(entries) + [Last(entries)];
      assert channel in NotifiedChannels(entries, alert)
        <==> channel in NotifiedChannels(Front(entries), alert) || (Last(entries).alert == alert && Last(entries).channel == channel);
    }
  }

  /** A resolution is queued for exactly the enabled channels that have heard of the alert. */
  lemma ResolutionGoesToTheTold(entries: seq<Entry>, notice: Notice, choice: Choice, channels: seq<Channel>, channel: nat)
    requires notice.kind.Resolved? && DistinctIds(channels)
    ensures EntriesFor(QueueNotice(entries, notice, choice, channels), notice.alert, channel)
         == EntriesFor(entries, notice.alert, channel)
            + if EntriesFor(entries, notice.alert, channel) != [] && exists c :: c in channels && c.id == channel && c.enabled
              then [Entry(notice.alert, channel, Resolved, notice.severity)] else []
  {
    var told := NotifiedChannels(entries, notice.alert);
    PickedDistinct(choice, channels, notice.kind, notice.severity, told);
    QueueAddsOne(entries, notice, PickedChannels(choice, channels, notice.kind, notice.severity, told), notice.alert, channel);
    NotifiedIffHeard(entries, notice.alert, channel);
    if c :| c in channels && c.id == channel && c.enabled {
      assert channel in told ==> Hears(choice, c, notice.kind, notice.severity, told);
    }
  }

  ghost predicate Resolves(story: seq<Notice>) {
    story != [] && Last(story).kind.Resolved?
  }

  lemma InOrderBefore(story: seq<Notice>, notice: Notice)
    requires InOrder(story + [notice])
    ensures InOrder(story) && !Resolves(story)
  {
    var longer := story + [notice];
    assert forall j :: 0 <= j < |story| ==> longer[j] == story[j];
    assert longer[|story|] == notice;
  }

  /** What one channel hears fits what was told of the alert so far. */
  ghost predicate Fits(heard: seq<Entry>, story: seq<Notice>) {
    Coherent(heard) && (heard != [] && Last(heard).kind.Resolved? ==> Resolves(story))
  }

  lemma TellingFits(entries: seq<Entry>, notice: Notice, choice: Choice, channels: seq<Channel>, alert: nat,
                    channel: nat, story: seq<Notice>)
    requires DistinctIds(channels) && Fits(EntriesFor(entries, alert, channel), story)
    requires notice.alert == alert ==> !Resolves(story)
    ensures Fits(EntriesFor(QueueNotice(entries, notice, choice, channels), alert, channel),
                 story + if notice.alert == alert then [notice] else [])
  {
    var heard := EntriesFor(entries, alert, channel);
    var told := if notice.kind.Resolved? then NotifiedChannels(entries, notice.alert) else {};
    var picked := PickedChannels(choice, channels, notice.kind, notice.severity, told);
    PickedDistinct(choice, channels, notice.kind, notice.severity, told);
    QueueAddsOne(entries, notice, picked, alert, channel);
    NotifiedIffHeard(entries, alert, channel);
    if notice.alert == alert {
      HeardFits(heard, story, notice, Entry(alert, channel, notice.kind, notice.severity));
    }
    assert heard + [] == heard && story + [] == story;
  }

  /** What was heard fits the longer story, and so does hearing its newest notice, which is no
      resolution when nothing was heard. */
  lemma HeardFits(heard: seq<Entry>, story: seq<Notice>, notice: Notice, entry: Entry)
    requires Fits(heard, story) && !Resolves(story) && entry.kind == notice.kind
    ensures Fits(heard, story + [notice])
    ensures (notice.kind.Resolved? ==> heard != []) ==> Fits(heard + [entry], story + [notice])
  {
    var longer := heard + [entry];
    assert longer[|heard|] == entry && forall j :: 0 <= j < |heard| ==> longer[j] == heard[j];
    assert heard != [] ==> Last(heard) == heard[|heard| - 1];
    assert Last(story + [notice]) == notice && Last(longer) == entry;
  }

  lemma {:induction false} QueueIsCoherent(actions: seq<QueueAction>, alert: nat, channel: nat)
    requires ProperTables(actions) && InOrder(NoticesOf(ToldIn(actions), alert))
    ensures Fits(EntriesFor(Queued(actions), alert, channel), NoticesOf(ToldIn(actions), alert))
  {
    if actions != [] {
      var before, action := Front(actions), Last(actions);
      var story := NoticesOf(ToldIn(before), alert);
      assert actions[|actions| - 1] == action;
      match action
      case DeleteChannel(gone) =>
        assert ToldIn(actions) == ToldIn(before);
        QueueIsCoherent(before, alert, channel);
        WithoutKeeps(Queued(before), gone, alert, channel);
      case Tell(notice, choice, channels, fails) =>
        assert Front(ToldIn(actions)) == ToldIn(before);
        if notice.alert == alert {
          InOrderBefore(story, notice);
        } else {
          assert NoticesOf(ToldIn(actions), alert) == story;
        }
        QueueIsCoherent(before, alert, channel);
        if !fails {
          TellingFits(Queued(before), notice, choice, channels, alert, channel, story);
        }
    }
  }

  /** End to end: over every run of the evaluator with dashboard edits, and every way the channels
      change and queueing fails meanwhile, no channel hears a resolution it was not told about
      before, and nothing after one. */
  lemma NoStrayResolution(run: seq<Action>, actions: seq<QueueAction>, alert: nat, channel: nat)
    requires ProperTables(actions) && ToldIn(actions) == Run(run).notices
    ensures Coherent(EntriesFor(Queued(actions), alert, channel))
  {
    EveryStoryIsWellTold(run);
    assert alert < |Run(run).alerts| ==>
      StoryOf(NoticesOf(Run(run).notices, alert), Run(run).alerts[alert], alert !in AlertNotices.Unheard(run));
    QueueIsCoherent(actions, alert, channel);
  }
}
