/** Task output from end to end: the agent takes what a task prints, reports it until the collector
    confirms, and the collector appends it to the run. */
module TaskReports {
  import opened Basics
  import opened Utf8
  import opened TaskOutput
  import opened TaskChunks
  import opened TaskRuns

  // ---------------------------------------------------------------- what the store makes of reports

  /** A report the store accepted: it found the run going. */
  datatype Report = Report(text: Text, truncated: bool)

  function Applied(run: TaskRun, reports: seq<Report>): TaskRun {
    if reports == [] then run
    else WithOutput(Applied(run, Front(reports)), Last(reports).text, Last(reports).truncated)
  }

  /** The text of reports one after the other. */
  function Total(reports: seq<Report>): Text {
    if reports == [] then [] else Total(Front(reports)) + WithoutNul(Last(reports).text)
  }

  predicate Flagged(reports: seq<Report>) {
    exists i :: 0 <= i < |reports| && reports[i].truncated
  }

  /** For any accepted reports, the stored output is the first characters of their text, up to the
      limit, and it is marked truncated exactly when a report said so or the text is longer. */
  lemma {:induction false} StoredOutput(run: TaskRun, reports: seq<Report>)
    requires run.output == [] && !run.truncated
    ensures var stored := Applied(run, reports);
            && stored.output == Left(Total(reports), 262144)
            && (stored.truncated <==> Flagged(reports) || |Total(reports)| > 262144)
  {
    if reports != [] {
      StoredOutput(run, Front(reports));
      FlaggedOneMore(reports);
      LeftContinues(Total(Front(reports)), WithoutNul(Last(reports).text), OUTPUT_LIMIT);
    }
  }

  lemma FlaggedOneMore(reports: seq<Report>)
    requires reports != []
    ensures Flagged(reports) <==> Flagged(Front(reports)) || Last(reports).truncated
  {
    assert forall i :: 0 <= i < |Front(reports)| ==> Front(reports)[i] == reports[i];
    assert Last(reports) == reports[|reports| - 1];
  }

  /** Cutting what is there and then what is added is cutting both at once. */
  lemma LeftContinues(a: Text, b: Text, limit: nat)
    ensures var kept := Left(a, limit);
            |kept| <= limit && kept + Left(b, limit - |kept|) == Left(a + b, limit)
            && (|kept| + |b| > limit || |a| > limit <==> |a + b| > limit)
  {
  }

  // ---------------------------------------------------------------- the agent's side of a run

  /** A report may fail before it reaches the store, or after the store took it. */
  datatype Network = Through | RequestLost | ReplyLost

  const END_TRIES: nat := 5

  /** The agent's buffer and the text it has not delivered yet, whether it still reports, whether
      the run is still going at the collector, and whether its end report was accepted. The rest
      is history: the accepted reports, everything taken, and what the store took although the
      agent could not know. */
  datatype Session = Session(
    buffer: Buffer, unsent: Text, reporting: bool, going: bool, ended: bool,
    accepted: seq<Report>, taken: Text, doubled: Text)

  const START := Session(EMPTY, [], true, true, false, [], [], [])

  function TakeMore(s: Session, end: bool): Session {
    var text := Taken(s.buffer, end);
    s.(buffer := Rest(s.buffer, end), unsent := s.unsent + text, taken := s.taken + text)
  }

  /** One try to deliver the output so far. Undelivered output goes with the next report. */
  function Send(s: Session, net: Network): Session {
    if net.RequestLost? then s
    else if !s.going then if net.Through? then s.(reporting := false) else s
    else
      var applied := s.(accepted := s.accepted + [Report(s.unsent, s.buffer.dropped)]);
      if net.Through? then applied.(unsent := []) else applied.(doubled := s.doubled + s.unsent)
  }

  function TickStep(s: Session, net: Network): Session {
    var more := TakeMore(s, false);
    if more.reporting && more.unsent != [] then Send(more, net) else more
  }

  /** The tries of the end report. They stop at the first that reaches the collector. */
  function SendEnd(s: Session, nets: seq<Network>): Session {
    if nets == [] then s
    else if nets[0].RequestLost? then SendEnd(s, nets[1..])
    else if s.going then
      s.(accepted := s.accepted + [Report(s.unsent, s.buffer.dropped)], going := false, ended := true)
    else s
  }

  function EndStep(s: Session, nets: seq<Network>): Session {
    var more := TakeMore(s, true);
    if more.reporting then SendEnd(more, nets) else more
  }

  /** A task prints, the ticker fires, or the collector gives up on the run. */
  datatype Event = Print(data: seq<Byte>) | Tick(net: Network) | GiveUp

  function EventStep(s: Session, event: Event): Session {
    match event
    case Print(data) => s.(buffer := Written(s.buffer, data))
    case Tick(net) => TickStep(s, net)
    case GiveUp => s.(going := false)
  }

  function Play(events: seq<Event>): Session {
    if events == [] then START else EventStep(Play(Front(events)), Last(events))
  }

  /** How waiting for a task's process ended. */
  datatype Wait = Clean | PipesLeftOpen | ExitedWith(code: int, message: Text) | Broken(message: Text)

  /** What an end report says besides the output. */
  datatype Exit = Exit(code: int, timedOut: bool, error: Text)

  /** The code is that of the process, or -1 without one. A run past its deadline timed out, unless
      it ended well all the same. */
  function ExitOf(wait: Wait, code: Option<int>, pastDeadline: bool): Exit {
    var number := if code.Some? then code.value else -1;
    match wait
    case Clean => Exit(number, false, [])
    case PipesLeftOpen => Exit(number, false, [])
    case ExitedWith(c, message) => if pastDeadline then Exit(number, true, []) else Exit(number, false, if c >= 0 then [] else message)
    case Broken(message) => if pastDeadline then Exit(number, true, []) else Exit(number, false, message)
  }

  /** A run is stored as succeeded exactly when its process ended by itself with code zero, and as
      timed out exactly when it did not end well by its deadline. */
  lemma EndIsStored(wait: Wait, code: Option<int>, pastDeadline: bool, output: Text, truncated: bool)
    requires wait.Broken? ==> wait.message != []
    requires wait.ExitedWith? ==> code == Some(wait.code) && wait.code != 0
    ensures var exit := ExitOf(wait, code, pastDeadline);
            var status := ResultStatus(TaskResult(output, truncated, exit.code, exit.timedOut, exit.error));
            && (status.Succeeded? <==> (wait.Clean? || wait.PipesLeftOpen?) && code == Some(0))
            && (status.TimedOut? <==> pastDeadline && (wait.ExitedWith? || wait.Broken?))
            && (wait.Clean? || wait.PipesLeftOpen? || pastDeadline ==> exit.error == [])
            && (wait.ExitedWith? && wait.code < 0 && !pastDeadline ==> exit.error == wait.message)
            && (wait.Broken? && !pastDeadline ==> exit.error == wait.message)
            && (wait.ExitedWith? && wait.code > 0 && !pastDeadline ==> exit.error == [] && exit.code == wait.code && status.Failed?)
  {
  }

  /** The agent's run loop, on an agent's view of its run. */
  class TaskRunner {
    const output: Collector
    var unsent: Text
    var reporting: bool
    // the collector's side of the run
    var going: bool
    var ended: bool
    var exit: Option<Exit>
    var accepted: seq<Report>
    ghost var taken: Text
    ghost var doubled: Text

    ghost function State(): Session
      reads this, output
    {
      Session(output.State(), unsent, reporting, going, ended, accepted, taken, doubled)
    }

    constructor ()
      ensures fresh(output) && State() == START && exit.None?
    {
      output := new Collector();
      unsent, reporting, going, ended, exit, accepted := [], true, true, false, None, [];
      taken, doubled := [], [];
    }

    /** One try to report the output so far. */
    method Deliver(net: Network, truncated: bool)
      requires truncated == output.dropped
      modifies this
      ensures State() == Send(old(State()), net) && exit == old(exit)
    {
      if net.RequestLost? {
        return;
      }
      if going {
        accepted := accepted + [Report(unsent, truncated)];
        if net.Through? {
          unsent := [];
        } else {
          doubled := doubled + unsent;
        }
      } else if net.Through? {
        reporting := false;
      }
    }

    /** Adds what can be taken to what is still to be sent. */
    method TakeReady(end: bool) returns (truncated: bool)
      modifies this, output
      ensures State() == TakeMore(old(State()), end) && truncated == output.dropped && exit == old(exit)
    {
      var text;
      text, truncated := output.Take(end);
      unsent, taken := unsent + text, taken + text;
    }

    method Tick(net: Network)
      modifies this, output
      ensures State() == TickStep(old(State()), net) && exit == old(exit)
    {
      var truncated := TakeReady(false);
      if reporting && unsent != [] {
        Deliver(net, truncated);
      }
    }

    /** Sends the end report, trying a few times. */
    method End(nets: seq<Network>, wait: Wait, code: Option<int>, pastDeadline: bool)
      requires |nets| == 5
      modifies this, output
      ensures State() == EndStep(old(State()), nets)
      ensures exit == if ended && !old(ended) then Some(ExitOf(wait, code, pastDeadline)) else old(exit)
    {
      var truncated := TakeReady(true);
      if reporting {
        ghost var ready := State();
        var try := 0;
        while try < END_TRIES
          invariant try <= END_TRIES && State() == ready && exit == old(exit) && ended == old(ended)
          invariant SendEnd(ready, nets[try..]) == SendEnd(ready, nets)
        {
          if !nets[try].RequestLost? {
            if going {
              accepted, going := accepted + [Report(unsent, truncated)], false;
              exit := if ended then exit else Some(ExitOf(wait, code, pastDeadline));
              ended := true;
            }
            return;
          }
          assert nets[try..][1..] == nets[try + 1..];
          try := try + 1;
        }
      }
    }
  }

  // ---------------------------------------------------------------- nothing lost, nothing doubled

  /** Text is delivered or still to be delivered, and what was doubled is accounted for. */
  ghost predicate Balanced(s: Session) {
    && |Total(s.accepted)| + |s.unsent| == |s.taken| + |s.doubled|
    && (s.doubled == [] ==> Total(s.accepted) + s.unsent == s.taken)
    && NUL !in s.unsent
    && |s.taken| + |s.buffer.pending| <= s.buffer.kept <= OUTPUT_BYTES
    && (Flagged(s.accepted) ==> s.buffer.dropped)
  }

  lemma TakeMoreKeeps(s: Session, end: bool)
    requires Balanced(s)
    ensures Balanced(TakeMore(s, end))
  {
    var size := TakeSize(s.buffer, end);
    ScanShrinks(s.buffer.pending[..size], false);
    WithoutNulShrinks(Scan(s.buffer.pending[..size], false));
    var text := Taken(s.buffer, end);
    assert Total(s.accepted) + (s.unsent + text) == Total(s.accepted) + s.unsent + text;
  }

  lemma OneMoreReport(reports: seq<Report>, report: Report)
    requires NUL !in report.text
    ensures Total(reports + [report]) == Total(reports) + report.text
    ensures Flagged(reports + [report]) <==> Flagged(reports) || report.truncated
  {
    assert Front(reports + [report]) == reports;
    NothingToClean(report.text);
    assert forall i :: 0 <= i < |reports| ==> (reports + [report])[i] == reports[i];
    assert (reports + [report])[|reports|] == report;
  }

  lemma SendKeeps(s: Session, net: Network)
    requires Balanced(s) && s.unsent != []
    ensures Balanced(Send(s, net))
  {
    OneMoreReport(s.accepted, Report(s.unsent, s.buffer.dropped));
  }

  lemma WriteKeepsBalance(s: Session, data: seq<Byte>)
    requires Balanced(s)
    ensures Balanced(s.(buffer := Written(s.buffer, data)))
  {
  }

  lemma {:induction false} PlayIsBalanced(events: seq<Event>)
    ensures Balanced(Play(events)) && !Play(events).ended
  {
    if events != [] {
      PlayIsBalanced(Front(events));
      var s := Play(Front(events));
      match Last(events)
      case Print(data) => WriteKeepsBalance(s, data);
      case Tick(net) =>
        TakeMoreKeeps(s, false);
        var more := TakeMore(s, false);
        if more.reporting && more.unsent != [] {
          SendKeeps(more, net);
        }
      case GiveUp =>
    }
  }

  lemma {:induction false} SendEndIs(s: Session, nets: seq<Network>)
    requires !s.ended && SendEnd(s, nets).ended
    ensures SendEnd(s, nets) == s.(accepted := s.accepted + [Report(s.unsent, s.buffer.dropped)], going := false, ended := true)
  {
    if nets != [] && nets[0].RequestLost? {
      SendEndIs(s, nets[1..]);
    }
  }

  // ---------------------------------------------------------------- from what is printed to the database

  function Ops(events: seq<Event>): seq<Op> {
    if events == [] then []
    else Ops(Front(events)) + match Last(events)
                              case Print(data) => [Write(data)]
                              case Tick(_) => [Take]
                              case GiveUp => []
  }

  lemma OneMoreOp(ops: seq<Op>, op: Op)
    ensures After(ops + [op]) == match op { case Write(data) => Written(After(ops), data) case Take => Rest(After(ops), false) }
    ensures TakenIn(ops + [op]) == TakenIn(ops) + if op.Take? then Taken(After(ops), false) else []
  {
    assert Front(ops + [op]) == ops;
  }

  lemma EventTakes(s: Session, event: Event)
    ensures var s' := EventStep(s, event);
            match event
            case Print(data) => s'.buffer == Written(s.buffer, data) && s'.taken == s.taken
            case Tick(_) => s'.buffer == Rest(s.buffer, false) && s'.taken == s.taken + Taken(s.buffer, false)
            case GiveUp => s'.buffer == s.buffer && s'.taken == s.taken
  {
  }

  lemma {:induction false} PlayTakes(events: seq<Event>)
    ensures Play(events).buffer == After(Ops(events)) && Play(events).taken == TakenIn(Ops(events))
  {
    if events != [] {
      var before := Front(events);
      PlayTakes(before);
      EventTakes(Play(before), Last(events));
      match Last(events)
      case Print(data) => OneMoreOp(Ops(before), Write(data));
      case Tick(_) => OneMoreOp(Ops(before), Take);
      case GiveUp => assert Ops(events) == Ops(before);
    }
  }

  // ---------------------------------------------------------------- reports taken unheard

  /** The ticker finds something to take after some events. */
  predicate Ready(events: seq<Event>) {
    Taken(After(Ops(events)), false) != []
  }

  /** Some tick took text, and no report has gone through since. `ready` says when there is text to
      take. */
  ghost predicate Waiting(ready: seq<Event> -> bool, events: seq<Event>) {
    exists j :: 0 <= j < |events| && WaitingSince(ready, events, j)
  }

  ghost predicate WaitingSince(ready: seq<Event> -> bool, events: seq<Event>, j: nat)
    requires j < |events|
  {
    events[j].Tick? && ready(events[..j]) && forall k :: j <= k < |events| ==> events[k] != Tick(Through)
  }

  /** The event at a place is a report with text that the store takes while its answer is lost: the
      collector has not given up on the run, and text waits or is just being taken. */
  ghost predicate Unheard(ready: seq<Event> -> bool, events: seq<Event>, i: nat)
    requires i < |events|
  {
    && events[i] == Tick(ReplyLost) && GiveUp !in events[..i]
    && (Waiting(ready, events[..i]) || ready(events[..i]))
  }

  ghost predicate SomeUnheard(ready: seq<Event> -> bool, events: seq<Event>) {
    exists i :: 0 <= i < |events| && Unheard(ready, events, i)
  }

  ghost predicate AnyUnheard(events: seq<Event>) {
    SomeUnheard(Ready, events)
  }

  lemma WaitingOneMore(ready: seq<Event> -> bool, events: seq<Event>)
    requires events != []
    ensures Waiting(ready, events) <==>
              Last(events) != Tick(Through) && (Waiting(ready, Front(events)) || (Last(events).Tick? && ready(Front(events))))
  {
    var before, last := Front(events), |events| - 1;
    assert events[..last] == before && events[last] == Last(events);
    forall j | 0 <= j < last ensures WaitingSince(ready, events, j) <==> WaitingSince(ready, before, j) && Last(events) != Tick(Through) {
      assert events[..j] == before[..j] && forall k :: 0 <= k < last ==> before[k] == events[k];
    }
    assert WaitingSince(ready, events, last) <==> Last(events).Tick? && ready(before) && Last(events) != Tick(Through);
  }

  lemma UnheardOneMore(ready: seq<Event> -> bool, events: seq<Event>)
    requires events != []
    ensures SomeUnheard(ready, events) <==>
              || SomeUnheard(ready, Front(events))
              || (Last(events) == Tick(ReplyLost) && GiveUp !in Front(events) && (Waiting(ready, Front(events)) || ready(Front(events))))
  {
    var before, last := Front(events), |events| - 1;
    assert events[..last] == before && events[last] == Last(events);
    forall i | 0 <= i < last ensures Unheard(ready, events, i) <==> Unheard(ready, before, i) {
      assert events[..i] == before[..i];
    }
    assert Unheard(ready, events, last) <==>
             Last(events) == Tick(ReplyLost) && GiveUp !in before && (Waiting(ready, before) || ready(before));
  }

  /** What the events say of a session. While the collector has not given up, the agent reports. */
  ghost predicate Says(ready: seq<Event> -> bool, events: seq<Event>, s: Session) {
    && (s.going <==> GiveUp !in events)
    && (s.going ==> s.reporting && (s.unsent != [] <==> Waiting(ready, events)))
    && (s.doubled == [] <==> !SomeUnheard(ready, events))
  }

  /** What an event does to a session, as far as the events can say. */
  ghost predicate Moves(s: Session, event: Event, taken: bool, s': Session) {
    var text := s.unsent != [] || (event.Tick? && taken);
    && (s'.going <==> s.going && event != GiveUp)
    && (s'.going && s.reporting ==> s'.reporting && (s'.unsent != [] <==> event != Tick(Through) && text))
    && (s'.doubled == [] <==> s.doubled == [] && !(event == Tick(ReplyLost) && s.going && s.reporting && text))
  }

  lemma EventMoves(s: Session, event: Event)
    ensures Moves(s, event, Taken(s.buffer, false) != [], EventStep(s, event))
  {
    if event.Tick? {
      var more := TakeMore(s, false);
      assert more.unsent == s.unsent + Taken(s.buffer, false);
    }
  }

  lemma SaysOneMore(ready: seq<Event> -> bool, events: seq<Event>, s: Session, s': Session)
    requires events != [] && Says(ready, Front(events), s) && Moves(s, Last(events), ready(Front(events)), s')
    ensures Says(ready, events, s')
  {
    WaitingOneMore(ready, events);
    UnheardOneMore(ready, events);
    InFrontOrLast(events, GiveUp);
  }

  /** Text is stored twice exactly when some report was taken unheard. */
  lemma {:induction false} DoubledIffUnheard(events: seq<Event>)
    ensures Says(Ready, events, Play(events))
  {
    if events != [] {
      DoubledIffUnheard(Front(events));
      PlaySays(events);
    }
  }

  lemma PlaySays(events: seq<Event>)
    requires events != [] && Says(Ready, Front(events), Play(Front(events)))
    ensures Says(Ready, events, Play(events))
  {
    PlayTakes(Front(events));
    EventMoves(Play(Front(events)), Last(events));
    SaysOneMore(Ready, events, Play(Front(events)), Play(events));
  }

  // ---------------------------------------------------------------- what is stored

  /** Once the end report is accepted, the accepted text is everything the agent took exactly when
      no report was taken unheard. It is then stored whole: the store's own cut never fires, and the
      run is marked truncated exactly when the agent dropped output. */
  lemma OutputArrivesWhole(events: seq<Event>, nets: seq<Network>, run: TaskRun)
    requires EndStep(Play(events), nets).ended && run.output == [] && !run.truncated
    ensures var s := EndStep(Play(events), nets);
            var stored := Applied(run, s.accepted);
            && (Total(s.accepted) == s.taken <==> !AnyUnheard(events))
            && |s.taken| <= |Total(s.accepted)|
            && (!AnyUnheard(events) ==> stored.output == s.taken && (stored.truncated <==> s.buffer.dropped))
            && (AnyUnheard(events) ==> stored.output != s.taken || stored.truncated)
  {
    PlayIsBalanced(events);
    DoubledIffUnheard(events);
    TakeMoreKeeps(Play(events), true);
    var more := TakeMore(Play(events), true);
    SendEndIs(more, nets);
    OneMoreReport(more.accepted, Report(more.unsent, more.buffer.dropped));
    StoredOutput(run, EndStep(Play(events), nets).accepted);
  }

  /** What a task prints is what the dashboard shows: for steady output within the limit, and valid
      text is steady, printed in any pieces, an accepted end report leaves the text of the whole
      output stored and not marked truncated, exactly when no report was taken unheard. */
  lemma PrintedIsStored(events: seq<Event>, nets: seq<Network>, run: TaskRun)
    requires EndStep(Play(events), nets).ended && run.output == [] && !run.truncated
    requires Steady(Printed(Ops(events))) && |Printed(Ops(events))| <= 262144
    ensures var stored := Applied(run, EndStep(Play(events), nets).accepted);
            stored.output == ToText(Printed(Ops(events))) && !stored.truncated <==> !AnyUnheard(events)
  {
    PlayTakes(events);
    PlayIsBalanced(events);
    SendEndIs(TakeMore(Play(events), true), nets);
    OutputArrivesWhole(events, nets, run);
    SteadyStreams(Ops(events));
    KeepsTheFirstBytes(Ops(events));
  }

  /** One lost answer: the text that was printed is stored twice in a row. */
  lemma LostAnswerDoubles(data: seq<Byte>, run: TaskRun)
    requires Utf8.Valid(data) && ToText(data) != [] && 2 * |data| <= OUTPUT_BYTES && run.output == [] && !run.truncated
    ensures var s := EndStep(Play([Print(data), Tick(ReplyLost)]), [Through]);
            && s.ended && s.taken == ToText(data)
            && Applied(run, s.accepted).output == ToText(data) + ToText(data) && !Applied(run, s.accepted).truncated
  {
    PlayUnheard(data);
    EndAfterUnheard(Play([Print(data), Tick(ReplyLost)]), ToText(data), |data|);
    TextShrinks(data);
    StoredTwice(ToText(data), run);
  }

  lemma StoredTwice(text: Text, run: TaskRun)
    requires NUL !in text && 2 * |text| <= OUTPUT_LIMIT && run.output == [] && !run.truncated
    ensures var stored := Applied(run, [Report(text, false), Report(text, false)]);
            stored.output == text + text && !stored.truncated
  {
    var reports := [Report(text, false), Report(text, false)];
    NothingToClean(text);
    StoredOutput(run, reports);
    assert Front(reports) == [Report(text, false)] && Front([Report(text, false)]) == [];
    assert Total([Report(text, false)]) == [] + text == text;
    assert Total(reports) == text + text;
  }

  lemma PlayUnheard(data: seq<Byte>)
    requires Valid(data) && ToText(data) != [] && |data| <= OUTPUT_BYTES
    ensures Play([Print(data), Tick(ReplyLost)])
         == Session(Buffer([], |data|, false), ToText(data), true, true, false, [Report(ToText(data), false)], ToText(data), ToText(data))
  {
    var full := Buffer(data, |data|, false);
    AllWritten(data);
    AllTaken(data);
    PlayOneMore([], Print(data));
    PlayOneMore([Print(data)], Tick(ReplyLost));
    assert [] + [Print(data)] == [Print(data)] && [Print(data)] + [Tick(ReplyLost)] == [Print(data), Tick(ReplyLost)];
    UnheardTick(START.(buffer := full), ToText(data), |data|);
  }

  lemma PlayOneMore(before: seq<Event>, event: Event)
    ensures Play(before + [event]) == EventStep(Play(before), event)
  {
    assert Front(before + [event]) == before && Last(before + [event]) == event;
  }

  lemma AllWritten(data: seq<Byte>)
    requires |data| <= OUTPUT_BYTES
    ensures EventStep(START, Print(data)) == START.(buffer := Buffer(data, |data|, false))
  {
    assert data[..|data|] == data && [] + data == data;
  }

  lemma AllTaken(data: seq<Byte>)
    requires Valid(data)
    ensures var full := Buffer(data, |data|, false);
            Taken(full, false) == ToText(data) && Rest(full, false) == Buffer([], |data|, false)
  {
    assert data[..|data|] == data;
    WholeIsLongest(data, |data|);
  }

  lemma UnheardTick(s: Session, text: Text, size: nat)
    requires s == START.(buffer := s.buffer) && Taken(s.buffer, false) == text != [] && Rest(s.buffer, false) == Buffer([], size, false)
    ensures EventStep(s, Tick(ReplyLost))
         == Session(Buffer([], size, false), text, true, true, false, [Report(text, false)], text, text)
  {
    assert [] + text == text;
  }

  lemma EndAfterUnheard(s: Session, text: Text, size: nat)
    requires s == Session(Buffer([], size, false), text, true, true, false, [Report(text, false)], text, text)
    ensures var end := EndStep(s, [Through]);
            end.ended && end.taken == text && end.accepted == [Report(text, false), Report(text, false)]
  {
    assert Taken(s.buffer, true) == [] && text + [] == text;
  }

  lemma TextShrinks(data: seq<Byte>)
    ensures |ToText(data)| <= |data| && NUL !in ToText(data)
  {
    ScanShrinks(data, false);
    WithoutNulShrinks(Scan(data, false));
  }
}
