/** The whole metrics page reads back: from its text alone, a reader that goes line by line gets every
    metric in its order, with the kind and help it first came with and its samples. */
module MetricsPage {
  import opened Basics
  import opened MetricsText
  import opened MetricsWriter

  // ---------------------------------------------------------------- lines

  predicate IsLine(line: string) {
    line != [] && Last(line) == '\n' && Without(Front(line), '\n')
  }

  function SplitLines(text: string): seq<string>
    decreases |text|
  {
    var (line, rest) := Until(text, {'\n'});
    if text == [] then [] else if rest == [] then [line] else [line + ['\n']] + SplitLines(rest[1..])
  }

  lemma SplitFirst(line: string, rest: string)
    requires IsLine(line)
    ensures SplitLines(line + rest) == [line] + SplitLines(rest)
  {
    var body := Front(line);
    assert line + rest == body + (['\n'] + rest);
    UntilStops(body, ['\n'] + rest, {'\n'});
    assert (['\n'] + rest)[1..] == rest && body + ['\n'] == line;
  }

  ghost predicate AllLines(lines: seq<string>) {
    forall k :: 0 <= k < |lines| ==> IsLine(lines[k])
  }

  lemma LinesOneLess(lines: seq<string>)
    requires lines != [] && AllLines(lines)
    ensures AllLines(Front(lines)) && IsLine(Last(lines)) && lines == Front(lines) + [Last(lines)]
  {
  }

  lemma LinesMore(a: seq<string>, b: seq<string>)
    requires AllLines(a) && AllLines(b)
    ensures AllLines(a + b)
  {
  }

  /** Lines written one after the other are found again. */
  lemma {:induction false} SplitJoined(lines: seq<string>, rest: string)
    requires AllLines(lines)
    ensures SplitLines(Joined(lines) + rest) == lines + SplitLines(rest)
  {
    if lines == [] {
      assert Joined(lines) + rest == rest;
    } else {
      LinesOneLess(lines);
      SplitJoined(Front(lines), Last(lines) + rest);
      JoinMoves(Joined(Front(lines)), Last(lines), rest);
      SplitFirst(Last(lines), rest);
      SplitEnds(Front(lines), Last(lines), SplitLines(rest), lines);
    }
  }

  lemma SplitEnds(front: seq<string>, last: string, more: seq<string>, lines: seq<string>)
    requires lines == front + [last]
    ensures front + ([last] + more) == lines + more
  {
  }

  lemma {:induction false} JoinedConcat(a: seq<string>, b: seq<string>)
    ensures Joined(a + b) == Joined(a) + Joined(b)
  {
    if b == [] {
      assert a + b == a;
    } else {
      JoinedConcat(a, Front(b));
      FrontOfSum(a, b);
      JoinMoves(Joined(a), Joined(Front(b)), Last(b));
    }
  }

  // ---------------------------------------------------------------- reading a page

  datatype Family = Family(metric: string, kind: string, help: string, samples: seq<Sample>)

  const HELP := "# HELP "
  const TYPE := "# TYPE "

  /** The first word of a line, and what follows it up to the line's end. */
  function Word(s: string): (string, string) {
    var (word, rest) := Until(s, {' '});
    (word, if |rest| < 2 then [] else rest[1..|rest| - 1])
  }

  function ReadLine(page: seq<Family>, line: string): seq<Family> {
    if HELP <= line then page + [Family(Word(line[|HELP|..]).0, [], Word(line[|HELP|..]).1, [])]
    else if page == [] then page
    else if TYPE <= line then Front(page) + [Last(page).(kind := Word(line[|TYPE|..]).1)]
    else
      match ParseSample(line)
      case Some(sample) => Front(page) + [Last(page).(samples := Last(page).samples + [sample])]
      case None => page
  }

  function ReadLines(page: seq<Family>, lines: seq<string>): seq<Family> {
    if lines == [] then page else ReadLine(ReadLines(page, Front(lines)), Last(lines))
  }

  lemma {:induction false} ReadConcat(page: seq<Family>, a: seq<string>, b: seq<string>)
    ensures ReadLines(page, a + b) == ReadLines(ReadLines(page, a), b)
  {
    if b == [] {
      assert a + b == a;
    } else {
      ReadConcat(page, a, Front(b));
      FrontOfSum(a, b);
    }
  }

  // ---------------------------------------------------------------- what is on it

  /** Nothing in a call has a line break outside a label's value, and its metric is one word. */
  predicate Clean(c: Call) {
    && Without(c.metric, '{') && Without(c.metric, ' ') && Without(c.metric, '\n') && Without(c.metric, '#')
    && Without(c.kind, '\n') && Without(c.help, '\n') && Without(c.value, '\n') && c.value != []
    && Named(Pairs(c.labels)) && forall k :: 0 <= k < |Pairs(c.labels)| ==> Without(Pairs(c.labels)[k].name, '\n')
  }

  ghost predicate AllClean(calls: seq<Call>) {
    forall i :: 0 <= i < |calls| ==> Clean(calls[i])
  }

  function SampleOf(c: Call): Sample {
    Sample(c.metric, Pairs(c.labels), c.value)
  }

  function SamplesRead(calls: seq<Call>): seq<Sample> {
    if calls == [] then [] else SamplesRead(Front(calls)) + [SampleOf(Last(calls))]
  }

  lemma HeaderLine(prefix: string, metric: string, text: string)
    requires |prefix| == 7 && Without(prefix, '\n') && Without(metric, ' ') && Without(metric, '\n') && Without(text, '\n')
    ensures var line := prefix + metric + " " + text + "\n";
            prefix <= line && IsLine(line) && Word(line[|prefix|..]) == (metric, text)
  {
    var line := prefix + metric + " " + text + "\n";
    var rest := " " + text + "\n";
    assert line[7..] == metric + rest;
    UntilStops(metric, rest, {' '});
    assert rest[1..|rest| - 1] == text;
    assert Front(line) == prefix + metric + " " + text;
  }

  lemma SampleLineReads(c: Call)
    requires Clean(c)
    ensures IsLine(LineOf(c)) && !(HELP <= LineOf(c)) && !(TYPE <= LineOf(c)) && ParseSample(LineOf(c)) == Some(SampleOf(c))
  {
    SampleIsOneLine(c.metric, Pairs(c.labels), c.value);
    SampleReadsBack(c.metric, Pairs(c.labels), c.value);
    var line := LineOf(c);
    assert c.metric != [] ==> line[0] == c.metric[0];
    assert line[0] != '#';
  }

  lemma CleanOneLess(calls: seq<Call>)
    requires calls != [] && AllClean(calls)
    ensures AllClean(Front(calls)) && Clean(Last(calls))
  {
  }

  lemma {:induction false} SampleLinesRead(page: seq<Family>, family: Family, calls: seq<Call>)
    requires AllClean(calls)
    ensures AllLines(Lines(calls))
    ensures ReadLines(page + [family], Lines(calls)) == page + [family.(samples := family.samples + SamplesRead(calls))]
  {
    if calls == [] {
      assert family.samples + [] == family.samples;
    } else {
      CleanOneLess(calls);
      SampleLinesRead(page, family, Front(calls));
      SampleLineReads(Last(calls));
      LinesMore(Lines(Front(calls)), [LineOf(Last(calls))]);
      OneMoreLine(page + [family], Lines(Front(calls)), LineOf(Last(calls)), Lines(calls));
      OneMoreSample(page, family, SamplesRead(Front(calls)), LineOf(Last(calls)), SampleOf(Last(calls)));
    }
  }

  lemma OneMoreLine(page: seq<Family>, before: seq<string>, line: string, lines: seq<string>)
    requires lines == before + [line]
    ensures ReadLines(page, lines) == ReadLine(ReadLines(page, before), line)
  {
    assert Front(lines) == before;
  }

  lemma OneMoreSample(page: seq<Family>, family: Family, read: seq<Sample>, line: string, sample: Sample)
    requires !(HELP <= line) && !(TYPE <= line) && ParseSample(line) == Some(sample)
    ensures ReadLine(page + [family.(samples := family.samples + read)], line)
         == page + [family.(samples := family.samples + (read + [sample]))]
  {
    var last := family.(samples := family.samples + read);
    assert Front(page + [last]) == page && Last(page + [last]) == last;
    assert family.samples + read + [sample] == family.samples + (read + [sample]);
  }

  function HelpLine(metric: string, help: string): string {
    HELP + metric + " " + help + "\n"
  }

  function TypeLine(metric: string, kind: string): string {
    TYPE + metric + " " + kind + "\n"
  }

  lemma HeaderIsLines(metric: string, kind: string, help: string)
    ensures HeaderText(metric, kind, help) == Joined([HelpLine(metric, help), TypeLine(metric, kind)])
  {
    var lines := [HelpLine(metric, help), TypeLine(metric, kind)];
    assert Front(lines) == [HelpLine(metric, help)] && Front(Front(lines)) == [];
    assert Joined([HelpLine(metric, help)]) == [] + HelpLine(metric, help) == HelpLine(metric, help);
    assert HelpLine(metric, help) + TypeLine(metric, kind) == HeaderText(metric, kind, help);
  }

  lemma HeaderReads(page: seq<Family>, metric: string, kind: string, help: string)
    requires Without(metric, ' ') && Without(metric, '\n') && Without(kind, '\n') && Without(help, '\n')
    ensures var lines := [HelpLine(metric, help), TypeLine(metric, kind)];
            && IsLine(lines[0]) && IsLine(lines[1])
            && ReadLines(page, lines) == page + [Family(metric, kind, help, [])]
  {
    var lines := [HelpLine(metric, help), TypeLine(metric, kind)];
    HeaderLine(HELP, metric, help);
    HeaderLine(TYPE, metric, kind);
    assert Front(lines) == [lines[0]] && Front([lines[0]]) == [];
    assert ReadLines(page, Front(lines)) == page + [Family(metric, [], help, [])];
    assert lines[1][2] == 'T' && HELP[2] == 'H';
    assert Front(page + [Family(metric, [], help, [])]) == page;
  }

  ghost function BlockLines(calls: seq<Call>, metric: string): seq<string> {
    match First(calls, metric)
    case Some(c) => [HelpLine(metric, c.help), TypeLine(metric, c.kind)] + Lines(SamplesOf(calls, metric))
    case None => []
  }

  /** A metric as it should be read. */
  ghost function FamilyOf(calls: seq<Call>, metric: string): Family {
    match First(calls, metric)
    case Some(c) => Family(metric, c.kind, c.help, SamplesRead(SamplesOf(calls, metric)))
    case None => Family(metric, [], [], [])
  }

  /** The first call of a metric is the earliest. */
  lemma {:induction false} FirstIsEarliest(calls: seq<Call>, metric: string)
    ensures match First(calls, metric)
            case Some(c) => exists i :: && 0 <= i < |calls| && calls[i] == c && c.metric == metric
                                        && forall j :: 0 <= j < i ==> calls[j].metric != metric
            case None => forall j :: 0 <= j < |calls| ==> calls[j].metric != metric
  {
    if calls != [] {
      FirstIsEarliest(Front(calls), metric);
      assert Last(calls) == calls[|calls| - 1] && forall i :: 0 <= i < |Front(calls)| ==> Front(calls)[i] == calls[i];
    }
  }

  lemma SamplesAreClean(calls: seq<Call>, metric: string)
    requires AllClean(calls)
    ensures AllClean(SamplesOf(calls, metric))
  {
    SamplesAreOfMetric(calls, metric);
    forall k | 0 <= k < |SamplesOf(calls, metric)| ensures Clean(SamplesOf(calls, metric)[k]) {
      assert SamplesOf(calls, metric)[k] in calls;
    }
  }

  /** A header and samples read as one metric. */
  lemma HeadedRead(page: seq<Family>, c: Call, samples: seq<Call>)
    requires Clean(c) && AllClean(samples)
    ensures var lines := [HelpLine(c.metric, c.help), TypeLine(c.metric, c.kind)] + Lines(samples);
            && AllLines(lines)
            && HeaderText(c.metric, c.kind, c.help) + Joined(Lines(samples)) == Joined(lines)
            && ReadLines(page, lines) == page + [Family(c.metric, c.kind, c.help, SamplesRead(samples))]
  {
    var header := [HelpLine(c.metric, c.help), TypeLine(c.metric, c.kind)];
    HeaderReads(page, c.metric, c.kind, c.help);
    HeaderIsLines(c.metric, c.kind, c.help);
    SampleLinesRead(page, Family(c.metric, c.kind, c.help, []), samples);
    JoinedConcat(header, Lines(samples));
    ReadConcat(page, header, Lines(samples));
    LinesMore(header, Lines(samples));
    assert [] + SamplesRead(samples) == SamplesRead(samples);
  }

  lemma BlockReads(page: seq<Family>, calls: seq<Call>, metric: string)
    requires AllClean(calls) && First(calls, metric).Some?
    ensures AllLines(BlockLines(calls, metric)) && Block(calls, metric) == Joined(BlockLines(calls, metric))
    ensures ReadLines(page, BlockLines(calls, metric)) == page + [FamilyOf(calls, metric)]
  {
    FirstIsEarliest(calls, metric);
    SamplesAreClean(calls, metric);
    HeadedRead(page, First(calls, metric).value, SamplesOf(calls, metric));
  }

  ghost function PageLines(calls: seq<Call>, metrics: seq<string>): seq<string> {
    if metrics == [] then [] else PageLines(calls, Front(metrics)) + BlockLines(calls, Last(metrics))
  }

  ghost function Families(calls: seq<Call>, metrics: seq<string>): seq<Family> {
    if metrics == [] then [] else Families(calls, Front(metrics)) + [FamilyOf(calls, Last(metrics))]
  }

  ghost predicate AllFirst(calls: seq<Call>, metrics: seq<string>) {
    forall k :: 0 <= k < |metrics| ==> First(calls, metrics[k]).Some?
  }

  lemma FirstOneLess(calls: seq<Call>, metrics: seq<string>)
    requires metrics != [] && AllFirst(calls, metrics)
    ensures AllFirst(calls, Front(metrics)) && First(calls, Last(metrics)).Some?
  {
  }

  lemma {:induction false} BlocksRead(calls: seq<Call>, metrics: seq<string>)
    requires AllClean(calls) && AllFirst(calls, metrics)
    ensures AllLines(PageLines(calls, metrics)) && Blocks(calls, metrics) == Joined(PageLines(calls, metrics))
    ensures ReadLines([], PageLines(calls, metrics)) == Families(calls, metrics)
  {
    if metrics != [] {
      var before, block := PageLines(calls, Front(metrics)), BlockLines(calls, Last(metrics));
      FirstOneLess(calls, metrics);
      BlocksRead(calls, Front(metrics));
      BlockReads(Families(calls, Front(metrics)), calls, Last(metrics));
      ReadConcat([], before, block);
      JoinedConcat(before, block);
      LinesMore(before, block);
    }
  }

  /** What is written reads back: the metrics in the order they first came up, each with the kind and help
      it first came with, and its samples in their order. */
  lemma PageReadsBack(calls: seq<Call>)
    requires AllClean(calls)
    ensures ReadLines([], SplitLines(Output(calls))) == Families(calls, Metrics(calls))
  {
    forall k | 0 <= k < |Metrics(calls)| ensures First(calls, Metrics(calls)[k]).Some? {
      FirstOfMetric(calls, Metrics(calls)[k]);
    }
    BlocksRead(calls, Metrics(calls));
    var lines := PageLines(calls, Metrics(calls));
    SplitJoined(lines, []);
    assert Joined(lines) + [] == Joined(lines) && lines + SplitLines([]) == lines;
  }
}
