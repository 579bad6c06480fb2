/** When an agent's reports stop: an end report arrives exactly when one of its tries does, no report is
    sent without text, and the agent stops reporting exactly when it hears that the run is given up. */
module TaskEnds {
  import opened Basics
  import opened Utf8
  import opened TaskOutput
  import opened TaskReports

  ghost predicate SomeArrives(nets: seq<Network>) {
    exists k :: 0 <= k < |nets| && !nets[k].RequestLost?
  }

  lemma {:induction false} SendEndIff(s: Session, nets: seq<Network>)
    requires !s.ended
    ensures SendEnd(s, nets).ended <==> s.going && SomeArrives(nets)
  {
    if nets != [] && nets[0].RequestLost? {
      SendEndIff(s, nets[1..]);
      assert forall k :: 0 <= k < |nets[1..]| ==> nets[1..][k] == nets[k + 1];
      if SomeArrives(nets) {
        var k :| 0 <= k < |nets| && !nets[k].RequestLost?;
        assert nets[1..][k - 1] == nets[k];
      }
    }
  }

  /** A run's end is stored exactly when the collector has not given up on the run and one of the tries of
      the end report reaches it. */
  lemma EndArrivesIff(events: seq<Event>, nets: seq<Network>)
    ensures EndStep(Play(events), nets).ended <==> GiveUp !in events && SomeArrives(nets)
  {
    PlayIsBalanced(events);
    DoubledIffUnheard(events);
    SendEndIff(TakeMore(Play(events), true), nets);
  }

  ghost predicate AllHaveText(reports: seq<Report>) {
    forall k :: 0 <= k < |reports| ==> reports[k].text != []
  }

  lemma TickKeepsText(s: Session, net: Network)
    requires AllHaveText(s.accepted)
    ensures AllHaveText(TickStep(s, net).accepted)
  {
  }

  /** While a task runs, only reports with text are sent. */
  lemma {:induction false} ReportsHaveText(events: seq<Event>)
    ensures AllHaveText(Play(events).accepted)
  {
    if events != [] {
      ReportsHaveText(Front(events));
      if Last(events).Tick? {
        TickKeepsText(Play(Front(events)), Last(events).net);
      }
    }
  }

  /** There is text to report when the ticker fires after some events. */
  predicate HasText(events: seq<Event>) {
    Play(events).unsent != [] || Taken(Play(events).buffer, false) != []
  }

  /** The event at a place is a report whose answer is heard and says that the run was given up. */
  ghost predicate HearsEnd(hasText: seq<Event> -> bool, events: seq<Event>, k: nat)
    requires k < |events|
  {
    events[k] == Tick(Through) && GiveUp in events[..k] && hasText(events[..k])
  }

  ghost predicate SomeHearsEnd(hasText: seq<Event> -> bool, events: seq<Event>) {
    exists k :: 0 <= k < |events| && HearsEnd(hasText, events, k)
  }

  lemma HearsEndOneMore(hasText: seq<Event> -> bool, events: seq<Event>)
    requires events != []
    ensures SomeHearsEnd(hasText, events) <==>
              || SomeHearsEnd(hasText, Front(events))
              || (Last(events) == Tick(Through) && GiveUp in Front(events) && hasText(Front(events)))
  {
    var before, last := Front(events), |events| - 1;
    assert events[..last] == before && events[last] == Last(events);
    forall k | 0 <= k < last ensures HearsEnd(hasText, events, k) <==> HearsEnd(hasText, before, k) {
      assert events[..k] == before[..k];
    }
    assert HearsEnd(hasText, events, last) <==> Last(events) == Tick(Through) && GiveUp in before && hasText(before);
  }

  lemma EventStops(s: Session, event: Event)
    ensures EventStep(s, event).reporting <==>
              s.reporting && !(event == Tick(Through) && !s.going && (s.unsent != [] || Taken(s.buffer, false) != []))
  {
    if event.Tick? {
      assert s.unsent + Taken(s.buffer, false) == [] <==> s.unsent == [] && Taken(s.buffer, false) == [];
    }
  }

  /** An agent stops reporting exactly when it hears that the collector has given up on the run. */
  lemma {:induction false} ReportingStopsIff(events: seq<Event>)
    ensures !Play(events).reporting <==> SomeHearsEnd(HasText, events)
  {
    if events != [] {
      ReportingStopsIff(Front(events));
      HearsEndOneMore(HasText, events);
      EventStops(Play(Front(events)), Last(events));
      DoubledIffUnheard(Front(events));
    }
  }
}
