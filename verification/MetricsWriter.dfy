/** The metrics writer: samples come in any order and are written grouped by metric, each set of
    labels once. */
module MetricsWriter {
  import opened Basics
  import opened MetricsText

  /** One call to add a sample. Its value is already text. */
  datatype Call = Call(metric: string, kind: string, help: string, value: string, labels: seq<string>)

  function LabelSet(c: Call): string {
    Render(Pairs(c.labels))
  }

  // ---------------------------------------------------------------- what should be written

  /** The metrics in the order they first come up. */
  function Metrics(calls: seq<Call>): seq<string> {
    if calls == [] then []
    else
      var before := Metrics(Front(calls));
      if Last(calls).metric in before then before else before + [Last(calls).metric]
  }

  /** Whether a metric already had a sample with a call's labels. */
  ghost predicate Repeats(calls: seq<Call>, c: Call) {
    exists i :: 0 <= i < |calls| && calls[i].metric == c.metric && LabelSet(calls[i]) == LabelSet(c)
  }

  /** The samples of a metric, in their order, without repeated ones. */
  ghost function SamplesOf(calls: seq<Call>, metric: string): seq<Call> {
    if calls == [] then []
    else
      var before := SamplesOf(Front(calls), metric);
      if Last(calls).metric == metric && !Repeats(Front(calls), Last(calls)) then before + [Last(calls)] else before
  }

  /** The first call for a metric. Its kind and help head the metric's block. */
  function First(calls: seq<Call>, metric: string): Option<Call> {
    if calls == [] then None
    else if First(Front(calls), metric).Some? then First(Front(calls), metric)
    else if Last(calls).metric == metric then Some(Last(calls))
    else None
  }

  function LineOf(c: Call): string {
    RenderSample(c.metric, Pairs(c.labels), c.value)
  }

  function Lines(calls: seq<Call>): seq<string> {
    if calls == [] then [] else Lines(Front(calls)) + [LineOf(Last(calls))]
  }

  function Joined(texts: seq<string>): string {
    if texts == [] then [] else Joined(Front(texts)) + Last(texts)
  }

  function HeaderText(metric: string, kind: string, help: string): string {
    "# HELP " + metric + " " + help + "\n# TYPE " + metric + " " + kind + "\n"
  }

  ghost function Block(calls: seq<Call>, metric: string): string {
    match First(calls, metric)
    case Some(c) => HeaderText(metric, c.kind, c.help) + Joined(Lines(SamplesOf(calls, metric)))
    case None => []
  }

  ghost function Blocks(calls: seq<Call>, metrics: seq<string>): string {
    if metrics == [] then [] else Blocks(calls, Front(metrics)) + Block(calls, Last(metrics))
  }

  /** What should be written: each metric's block, in the order the metrics first came up. */
  ghost function Output(calls: seq<Call>): string {
    Blocks(calls, Metrics(calls))
  }

  // ---------------------------------------------------------------- what that means

  ghost predicate CleanNames(calls: seq<Call>) {
    forall i :: 0 <= i < |calls| ==> Named(Pairs(calls[i].labels))
  }

  /** What one more call does to the samples of a metric. */
  lemma SamplesOneMore(calls: seq<Call>, c: Call, metric: string)
    ensures SamplesOf(calls + [c], metric) ==
            if c.metric == metric && !Repeats(calls, c) then SamplesOf(calls, metric) + [c] else SamplesOf(calls, metric)
  {
    assert Front(calls + [c]) == calls && Last(calls + [c]) == c;
  }

  ghost predicate SameLabelsBefore(calls: seq<Call>, c: Call) {
    exists i :: 0 <= i < |calls| && calls[i].metric == c.metric && Pairs(calls[i].labels) == Pairs(c.labels)
  }

  /** A sample is left out exactly when its metric already had one with the same labels, and is
      added at the end of its metric otherwise. */
  lemma LeftOutIffSameLabels(calls: seq<Call>, c: Call)
    requires CleanNames(calls) && Named(Pairs(c.labels))
    ensures SamplesOf(calls + [c], c.metric) ==
            if SameLabelsBefore(calls, c) then SamplesOf(calls, c.metric) else SamplesOf(calls, c.metric) + [c]
  {
    SamplesOneMore(calls, c, c.metric);
    forall i | 0 <= i < |calls| ensures LabelSet(calls[i]) == LabelSet(c) <==> Pairs(calls[i].labels) == Pairs(c.labels) {
      RenderedAlikeIff(Pairs(calls[i].labels), Pairs(c.labels));
    }
  }

  lemma {:induction false} MetricsAreDistinct(calls: seq<Call>)
    ensures Distinct(Metrics(calls))
    ensures forall i :: 0 <= i < |calls| ==> calls[i].metric in Metrics(calls)
  {
    if calls != [] {
      MetricsAreDistinct(Front(calls));
      forall i | 0 <= i < |calls| ensures calls[i].metric in Metrics(calls) {
        if i < |calls| - 1 {
          assert Front(calls)[i] == calls[i];
        }
      }
    }
  }

  lemma {:induction false} SamplesAreOfMetric(calls: seq<Call>, metric: string)
    ensures forall k :: 0 <= k < |SamplesOf(calls, metric)| ==>
      SamplesOf(calls, metric)[k].metric == metric && SamplesOf(calls, metric)[k] in calls
  {
    if calls != [] {
      SamplesAreOfMetric(Front(calls), metric);
      assert calls == Front(calls) + [Last(calls)];
    }
  }

  /** No two samples of a metric have the same labels. */
  lemma {:induction false} SamplesDiffer(calls: seq<Call>, metric: string, i: nat, j: nat)
    requires i < j < |SamplesOf(calls, metric)|
    ensures LabelSet(SamplesOf(calls, metric)[i]) != LabelSet(SamplesOf(calls, metric)[j])
  {
    var before := SamplesOf(Front(calls), metric);
    if j < |before| {
      SamplesDiffer(Front(calls), metric, i, j);
    } else {
      SamplesAreOfMetric(Front(calls), metric);
      assert before[i] in Front(calls);
    }
  }

  /** Every label set a metric was given is written. */
  lemma {:induction false} EveryLabelSetIsWritten(calls: seq<Call>, i: nat)
    requires i < |calls|
    ensures exists k :: 0 <= k < |SamplesOf(calls, calls[i].metric)| && LabelSet(SamplesOf(calls, calls[i].metric)[k]) == LabelSet(calls[i])
  {
    var c, before := calls[i], SamplesOf(Front(calls), calls[i].metric);
    if i < |calls| - 1 {
      EveryLabelSetIsWritten(Front(calls), i);
      var k :| 0 <= k < |before| && LabelSet(before[k]) == LabelSet(c);
      assert SamplesOf(calls, c.metric)[k] == before[k];
    } else if Repeats(Front(calls), c) {
      var j :| 0 <= j < |Front(calls)| && Front(calls)[j].metric == c.metric && LabelSet(Front(calls)[j]) == LabelSet(c);
      EveryLabelSetIsWritten(Front(calls), j);
      assert SamplesOf(calls, c.metric) == before;
    } else {
      assert SamplesOf(calls, c.metric)[|before|] == c;
    }
  }

  // ---------------------------------------------------------------- the writer

  /** Writes the name and value pairs of a label list. */
  method WriteLabels(labels: seq<string>) returns (text: string)
    ensures text == Render(Pairs(labels))
  {
    text := [];
    var i := 0;
    assert labels[..0] == [];
    while i + 1 < |labels|
      invariant 0 <= i <= |labels| && i % 2 == 0
      invariant text == Render(Pairs(labels[..i]))
    {
      if i > 0 {
        text := text + [','];
      }
      text := text + RenderLabel(Label(labels[i], labels[i + 1]));
      PairsOneMore(labels, i);
      RenderOneMore(Pairs(labels[..i]), Label(labels[i], labels[i + 1]));
      i := i + 2;
    }
    OddOneOut(labels, i);
  }

  lemma {:induction false} PairsOneMore(texts: seq<string>, i: nat)
    requires i % 2 == 0 && i + 1 < |texts|
    ensures Pairs(texts[..i + 2]) == Pairs(texts[..i]) + [Label(texts[i], texts[i + 1])]
    ensures i > 0 ==> Pairs(texts[..i]) != []
  {
    if i > 0 {
      PairsOneMore(texts[2..], i - 2);
      assert texts[..i + 2][2..] == texts[2..][..i] && texts[..i][2..] == texts[2..][..i - 2];
    } else {
      assert texts[..2][2..] == [];
    }
  }

  lemma {:induction false} OddOneOut(texts: seq<string>, i: nat)
    requires i % 2 == 0 && i <= |texts| <= i + 1
    ensures Pairs(texts[..i]) == Pairs(texts)
  {
    if i > 0 {
      OddOneOut(texts[2..], i - 2);
      assert texts[..i][2..] == texts[2..][..i - 2];
    }
  }

  lemma {:induction false} RenderOneMore(labels: seq<Label>, l: Label)
    ensures Render(labels + [l]) == Render(labels) + (if labels == [] then [] else [',']) + RenderLabel(l)
  {
    if |labels| > 0 {
      RenderOneMore(labels[1..], l);
      assert (labels + [l])[1..] == labels[1..] + [l];
    }
  }

  ghost function SeenBy(calls: seq<Call>, metric: string): set<string> {
    set i | 0 <= i < |calls| && calls[i].metric == metric :: LabelSet(calls[i])
  }

  lemma MetricsOneMore(calls: seq<Call>, c: Call)
    ensures Metrics(calls + [c]) == if c.metric in Metrics(calls) then Metrics(calls) else Metrics(calls) + [c.metric]
  {
    assert Front(calls + [c]) == calls && Last(calls + [c]) == c;
  }

  lemma FirstOneMore(calls: seq<Call>, c: Call, metric: string)
    ensures First(calls + [c], metric) ==
            if First(calls, metric).Some? then First(calls, metric) else if c.metric == metric then Some(c) else None
  {
    assert Front(calls + [c]) == calls && Last(calls + [c]) == c;
  }

  lemma {:induction false} FirstOfMetric(calls: seq<Call>, metric: string)
    ensures First(calls, metric).Some? <==> metric in Metrics(calls)
  {
    if calls != [] {
      FirstOfMetric(Front(calls), metric);
    }
  }

  lemma SeenOneMore(calls: seq<Call>, c: Call, metric: string)
    ensures SeenBy(calls + [c], metric) == if c.metric == metric then SeenBy(calls, metric) + {LabelSet(c)} else SeenBy(calls, metric)
    ensures Repeats(calls, c) <==> LabelSet(c) in SeenBy(calls, c.metric)
  {
    var all := calls + [c];
    assert all[|calls|] == c && forall i :: 0 <= i < |calls| ==> all[i] == calls[i];
  }

  lemma LinesOneMore(calls: seq<Call>, c: Call)
    ensures Lines(calls + [c]) == Lines(calls) + [LineOf(c)]
  {
    assert Front(calls + [c]) == calls && Last(calls + [c]) == c;
  }

  lemma NewMetric(calls: seq<Call>, metric: string)
    requires metric !in Metrics(calls)
    ensures SamplesOf(calls, metric) == [] && SeenBy(calls, metric) == {}
  {
    MetricsAreDistinct(calls);
    SamplesAreOfMetric(calls, metric);
    if SamplesOf(calls, metric) != [] {
      assert false;
    }
  }

  method SampleLine(metric: string, labelSet: string, value: string, ghost labels: seq<Label>) returns (sample: string)
    requires labelSet == Render(labels)
    ensures sample == RenderSample(metric, labels, value)
  {
    var braced := [];
    if |labelSet| > 0 {
      braced := ['{'] + labelSet + ['}'];
    }
    sample := metric + braced + [' '] + value + ['\n'];
  }

  lemma JoinedOneMore(texts: seq<string>, m: nat)
    requires m < |texts|
    ensures Joined(texts[..m + 1]) == Joined(texts[..m]) + texts[m]
  {
    assert Front(texts[..m + 1]) == texts[..m];
  }

  lemma JoinMoves(a: string, b: string, c: string)
    ensures (a + b) + c == a + (b + c)
  {
  }

  class MetricFamily {
    const name: string
    const kind: string
    const help: string
    var samples: seq<string>
    var seen: set<string>

    constructor (name: string, kind: string, help: string)
      ensures this.name == name && this.kind == kind && this.help == help && samples == [] && seen == {}
    {
      this.name, this.kind, this.help, samples, seen := name, kind, help, [], {};
    }

    /** The family is what the calls so far give its metric. */
    ghost predicate Collected(calls: seq<Call>)
      reads this
    {
      && First(calls, name).Some? && kind == First(calls, name).value.kind && help == First(calls, name).value.help
      && samples == Lines(SamplesOf(calls, name)) && seen == SeenBy(calls, name)
    }

    /** Records a sample unless one with its labels is there. A new family has no samples yet. */
    method Record(c: Call, ghost calls: seq<Call>)
      requires name == c.metric && samples == Lines(SamplesOf(calls, name)) && seen == SeenBy(calls, name)
      requires First(calls + [c], name).Some? && kind == First(calls + [c], name).value.kind && help == First(calls + [c], name).value.help
      modifies this
      ensures Collected(calls + [c])
    {
      var text := WriteLabels(c.labels);
      SamplesOneMore(calls, c, name);
      SeenOneMore(calls, c, name);
      if text in seen {
        return;
      }
      seen := seen + {text};
      var sample := SampleLine(c.metric, text, c.value, Pairs(c.labels));
      samples := samples + [sample];
      LinesOneMore(SamplesOf(calls, name), c);
    }

    /** The family's text: its header and its samples. */
    method Write() returns (text: string)
      ensures text == HeaderText(name, kind, help) + Joined(samples)
    {
      var header := HeaderText(name, kind, help);
      text := header;
      for m := 0 to |samples|
        invariant text == header + Joined(samples[..m])
      {
        JoinedOneMore(samples, m);
        JoinMoves(header, Joined(samples[..m]), samples[m]);
        text := text + samples[m];
      }
      assert samples[..|samples|] == samples;
    }
  }

  /** A family of another metric is the same after a call. */
  lemma CollectedStill(f: MetricFamily, calls: seq<Call>, c: Call)
    requires f.Collected(calls) && f.name != c.metric
    ensures f.Collected(calls + [c])
  {
    SamplesOneMore(calls, c, f.name);
    SeenOneMore(calls, c, f.name);
    FirstOneMore(calls, c, f.name);
  }

  lemma BlocksOneMore(calls: seq<Call>, metrics: seq<string>, k: nat, block: string)
    requires k < |metrics| && block == Block(calls, metrics[k])
    ensures Blocks(calls, metrics[..k + 1]) == Blocks(calls, metrics[..k]) + block
  {
    assert Front(metrics[..k + 1]) == metrics[..k];
  }

  /** The families are the metrics in their order, found by their names. */
  ghost predicate Lists(families: seq<MetricFamily>, byName: map<string, MetricFamily>, metrics: seq<string>) {
    && |families| == |metrics|
    && (forall k :: 0 <= k < |families| ==>
          families[k].name == metrics[k] && families[k].name in byName && byName[families[k].name] == families[k])
    && (forall name :: name in byName ==> byName[name] in families && byName[name].name == name)
  }

  lemma ListsOneMore(families: seq<MetricFamily>, byName: map<string, MetricFamily>, metrics: seq<string>, family: MetricFamily)
    requires Lists(families, byName, metrics) && family.name !in byName
    ensures Lists(families + [family], byName[family.name := family], metrics + [family.name])
  {
    assert forall k :: 0 <= k < |families| ==> families[k].name != family.name;
  }

  class Writer {
    var families: seq<MetricFamily>
    var byName: map<string, MetricFamily>
    ghost var calls: seq<Call>

    ghost predicate Listed(metrics: seq<string>)
      reads this
    {
      Lists(families, byName, metrics)
    }

    ghost predicate Valid()
      reads this, families
    {
      Listed(Metrics(calls)) && forall k :: 0 <= k < |families| ==> families[k].Collected(calls)
    }

    constructor ()
      ensures Valid() && calls == [] && families == []
    {
      families, byName, calls := [], map[], [];
    }

    lemma FindsMetric(name: string)
      requires Listed(Metrics(calls))
      ensures name in byName <==> name in Metrics(calls)
    {
      if name in byName {
        var k :| 0 <= k < |families| && families[k] == byName[name];
        assert Metrics(calls)[k] == name;
      }
    }

    lemma OthersStill(c: Call)
      requires Valid()
      ensures forall k :: 0 <= k < |families| && families[k].name != c.metric ==> families[k].Collected(calls + [c])
    {
      forall k | 0 <= k < |families| && families[k].name != c.metric ensures families[k].Collected(calls + [c]) {
        CollectedStill(families[k], calls, c);
      }
    }

    /** The family of a call's metric, ready to take its sample. */
    method FamilyOf(c: Call) returns (family: MetricFamily)
      requires Valid()
      modifies this
      ensures calls == old(calls) + [c] && Listed(Metrics(calls))
      ensures family in families && family.name == c.metric
      ensures family.samples == Lines(SamplesOf(old(calls), c.metric)) && family.seen == SeenBy(old(calls), c.metric)
      ensures var first := First(calls, c.metric); first.Some? && family.kind == first.value.kind && family.help == first.value.help
      ensures forall k :: 0 <= k < |families| && families[k] != family ==> families[k].Collected(calls)
      ensures families == old(families) || (fresh(family) && families == old(families) + [family])
    {
      FindsMetric(c.metric);
      MetricsOneMore(calls, c);
      FirstOneMore(calls, c, c.metric);
      FirstOfMetric(calls, c.metric);
      OthersStill(c);
      if c.metric in byName {
        family := byName[c.metric];
      } else {
        family := new MetricFamily(c.metric, c.kind, c.help);
        NewMetric(calls, c.metric);
        ListsOneMore(families, byName, Metrics(calls), family);
        byName := byName[c.metric := family];
        families := families + [family];
      }
      calls := calls + [c];
    }

    /** Adds a sample to the family of its metric, a new one when it has none yet. */
    method Add(c: Call)
      requires Valid()
      modifies this, families
      ensures Valid() && calls == old(calls) + [c]
      ensures forall f :: f in families ==> f in old(families) || fresh(f)
    {
      ghost var before := calls;
      var family := FamilyOf(c);
      label found:
      family.Record(c, before);
      forall k | 0 <= k < |families| ensures families[k].Collected(calls) {
        assert families[k] != family ==> old@found(families[k].Collected(calls));
      }
    }

    /** Writes every family in a piece. */
    method WriteTo() returns (text: string)
      requires Valid()
      ensures text == Output(calls)
    {
      text := [];
      for k := 0 to |families|
        invariant |families| == |Metrics(calls)|
        invariant text == Blocks(calls, Metrics(calls)[..k])
      {
        var family := families[k];
        assert family.Collected(calls) && family.name == Metrics(calls)[k];
        var block := family.Write();
        BlocksOneMore(calls, Metrics(calls), k, block);
        text := text + block;
      }
      assert Metrics(calls)[..|families|] == Metrics(calls);
    }
  }
}
