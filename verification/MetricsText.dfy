/** The samples of the Prometheus text format, version 0.0.4: how a sample is written, and how a
    reader gets it back. */
module MetricsText {
  import opened Basics

  /** A label: its name and its value. */
  datatype Label = Label(name: string, value: string)

  const QUOTE: char := '\"'
  const BACKSLASH: char := '\\'

  function EscapeChar(c: char): string {
    if c == BACKSLASH then [BACKSLASH, BACKSLASH]
    else if c == QUOTE then [BACKSLASH, QUOTE]
    else if c == '\n' then [BACKSLASH, 'n']
    else [c]
  }

  function Escape(value: string): string {
    if value == [] then [] else EscapeChar(value[0]) + Escape(value[1..])
  }

  function RenderLabel(l: Label): string {
    l.name + ['=', QUOTE] + Escape(l.value) + [QUOTE]
  }

  function Render(labels: seq<Label>): string {
    if labels == [] then []
    else if |labels| == 1 then RenderLabel(labels[0])
    else RenderLabel(labels[0]) + [','] + Render(labels[1..])
  }

  function RenderSample(metric: string, labels: seq<Label>, value: string): string {
    metric + (if Render(labels) == [] then [] else ['{'] + Render(labels) + ['}']) + [' '] + value + ['\n']
  }

  /** Names and values alternate. A name without a value is left out. */
  function Pairs(texts: seq<string>): seq<Label> {
    if |texts| < 2 then [] else [Label(texts[0], texts[1])] + Pairs(texts[2..])
  }

  // ---------------------------------------------------------------- reading

  /** A text up to one of the stop characters, and the rest from there. */
  function Until(s: string, stops: set<char>): (r: (string, string))
    ensures r.0 + r.1 == s
  {
    if s == [] || s[0] in stops then ([], s)
    else
      var (text, rest) := Until(s[1..], stops);
      ([s[0]] + text, rest)
  }

  function Unescape(s: string): (r: Option<(string, string)>)
    ensures r.Some? ==> |r.value.1| < |s|
  {
    if s == [] then None
    else if s[0] == QUOTE then Some(([], s[1..]))
    else if s[0] != BACKSLASH then Prepend(s[0], Unescape(s[1..]))
    else if |s| < 2 then None
    else if s[1] == 'n' then Prepend('\n', Unescape(s[2..]))
    else if s[1] == BACKSLASH || s[1] == QUOTE then Prepend(s[1], Unescape(s[2..]))
    else None
  }

  function Prepend(c: char, r: Option<(string, string)>): Option<(string, string)> {
    match r
    case Some((text, rest)) => Some(([c] + text, rest))
    case None => None
  }

  function ParseLabel(s: string): (r: Option<(Label, string)>)
    ensures r.Some? ==> |r.value.1| < |s|
  {
    var (name, rest) := Until(s, {'='});
    if |rest| < 2 || rest[1] != QUOTE then None
    else
      match Unescape(rest[2..])
      case Some((value, more)) => Some((Label(name, value), more))
      case None => None
  }

  /** Labels with commas between them, and the rest after them. */
  function ParseLabels(s: string): Option<(seq<Label>, string)>
    decreases |s|
  {
    match ParseLabel(s)
    case None => None
    case Some((l, rest)) =>
      if rest == [] || rest[0] != ',' then Some(([l], rest))
      else
        match ParseLabels(rest[1..])
        case None => None
        case Some((labels, more)) => Some(([l] + labels, more))
  }

  datatype Sample = Sample(metric: string, labels: seq<Label>, value: string)

  function ParseSample(line: string): Option<Sample> {
    var (metric, rest) := Until(line, {'{', ' '});
    if rest == [] then None
    else if rest[0] == ' ' then ParseValue(metric, [], rest)
    else
      match ParseLabels(rest[1..])
      case None => None
      case Some((labels, more)) => if more == [] || more[0] != '}' then None else ParseValue(metric, labels, more[1..])
  }

  function ParseValue(metric: string, labels: seq<Label>, s: string): Option<Sample> {
    if |s| < 2 || s[0] != ' ' || s[|s| - 1] != '\n' then None else Some(Sample(metric, labels, s[1..|s| - 1]))
  }

  // ---------------------------------------------------------------- what is written reads back

  predicate Without(text: string, c: char) {
    c !in text
  }

  /** Label names of the text format have no equals sign. Values can be anything. */
  predicate Named(labels: seq<Label>) {
    forall k :: 0 <= k < |labels| ==> Without(labels[k].name, '=')
  }

  lemma {:induction false} UntilStops(text: string, rest: string, stops: set<char>)
    requires forall k :: 0 <= k < |text| ==> text[k] !in stops
    requires rest != [] && rest[0] in stops
    ensures Until(text + rest, stops) == (text, rest)
  {
    if text == [] {
      assert text + rest == rest;
    } else {
      assert (text + rest)[1..] == text[1..] + rest;
      UntilStops(text[1..], rest, stops);
      assert text == [text[0]] + text[1..];
    }
  }

  lemma UnescapeChar(c: char, tail: string, text: string, rest: string)
    requires Unescape(tail) == Some((text, rest))
    ensures Unescape(EscapeChar(c) + tail) == Some(([c] + text, rest))
  {
    var s := EscapeChar(c) + tail;
    assert s[|EscapeChar(c)|..] == tail && s[0] == EscapeChar(c)[0];
    if s[0] == BACKSLASH {
      assert s[1] == EscapeChar(c)[1];
    }
  }

  lemma {:induction false} UnescapeEscaped(value: string, rest: string)
    ensures Unescape(Escape(value) + [QUOTE] + rest) == Some((value, rest))
  {
    if value == [] {
      assert Escape(value) + [QUOTE] + rest == [QUOTE] + rest;
    } else {
      var tail := Escape(value[1..]) + [QUOTE] + rest;
      UnescapeEscaped(value[1..], rest);
      UnescapeChar(value[0], tail, value[1..], rest);
      assert Escape(value) + [QUOTE] + rest == EscapeChar(value[0]) + tail;
      assert value == [value[0]] + value[1..];
    }
  }

  lemma LabelReadsBack(l: Label, rest: string)
    requires Without(l.name, '=')
    ensures ParseLabel(RenderLabel(l) + rest) == Some((l, rest))
  {
    var quoted := Escape(l.value) + [QUOTE] + rest;
    assert RenderLabel(l) + rest == l.name + (['=', QUOTE] + quoted);
    UntilStops(l.name, ['=', QUOTE] + quoted, {'='});
    assert (['=', QUOTE] + quoted)[2..] == quoted;
    UnescapeEscaped(l.value, rest);
  }

  lemma {:induction false} LabelsReadBack(labels: seq<Label>, rest: string)
    requires labels != [] && Named(labels) && (rest == [] || rest[0] != ',')
    ensures ParseLabels(Render(labels) + rest) == Some((labels, rest))
  {
    var first := RenderLabel(labels[0]);
    if |labels| == 1 {
      LabelReadsBack(labels[0], rest);
      LastLabel(first + rest, labels[0], rest);
      assert labels == [labels[0]];
    } else {
      var tail := Render(labels[1..]) + rest;
      LabelsReadBack(labels[1..], rest);
      LabelReadsBack(labels[0], [','] + tail);
      OneMoreLabel(first + ([','] + tail), labels[0], tail, labels[1..], rest);
      Regroup(first, [','], Render(labels[1..]), rest);
      assert labels == [labels[0]] + labels[1..];
    }
  }

  lemma Regroup(a: string, b: string, c: string, d: string)
    ensures a + b + c + d == a + (b + (c + d))
  {
  }

  lemma LastLabel(s: string, l: Label, rest: string)
    requires ParseLabel(s) == Some((l, rest)) && (rest == [] || rest[0] != ',')
    ensures ParseLabels(s) == Some(([l], rest))
  {
  }

  lemma OneMoreLabel(s: string, l: Label, tail: string, labels: seq<Label>, rest: string)
    requires ParseLabel(s) == Some((l, [','] + tail)) && ParseLabels(tail) == Some((labels, rest))
    ensures ParseLabels(s) == Some(([l] + labels, rest))
  {
    assert ([','] + tail)[1..] == tail;
  }

  lemma {:induction false} RenderIsLong(labels: seq<Label>)
    ensures |Render(labels)| >= |labels|
  {
    if |labels| > 1 {
      RenderIsLong(labels[1..]);
    }
  }

  /** Two label lists are written alike exactly when they are the same. */
  lemma RenderedAlikeIff(a: seq<Label>, b: seq<Label>)
    requires Named(a) && Named(b)
    ensures Render(a) == Render(b) <==> a == b
  {
    RenderIsLong(a);
    RenderIsLong(b);
    if a != [] && b != [] && Render(a) == Render(b) {
      assert Render(a) + [] == Render(a) && Render(b) + [] == Render(b);
      LabelsReadBack(a, []);
      LabelsReadBack(b, []);
    }
  }

  /** A sample reads back exactly, whatever its label values hold. */
  lemma SampleReadsBack(metric: string, labels: seq<Label>, value: string)
    requires Without(metric, '{') && Without(metric, ' ') && Named(labels) && value != []
    ensures ParseSample(RenderSample(metric, labels, value)) == Some(Sample(metric, labels, value))
  {
    var end := [' '] + value + ['\n'];
    assert end[1..|end| - 1] == value;
    RenderIsLong(labels);
    if labels == [] {
      assert RenderSample(metric, labels, value) == metric + end;
      UntilStops(metric, end, {'{', ' '});
    } else {
      var rest := ['{'] + (Render(labels) + (['}'] + end));
      UntilStops(metric, rest, {'{', ' '});
      LabelsReadBack(labels, ['}'] + end);
      LabelledSample(metric + rest, metric, Render(labels), labels, end);
      LabelledSampleText(metric, labels, value);
    }
  }

  lemma LabelledSampleText(metric: string, labels: seq<Label>, value: string)
    requires Render(labels) != []
    ensures RenderSample(metric, labels, value) == metric + (['{'] + (Render(labels) + (['}'] + ([' '] + value + ['\n']))))
  {
  }

  lemma LabelledSample(line: string, metric: string, written: string, labels: seq<Label>, end: string)
    requires Until(line, {'{', ' '}) == (metric, ['{'] + (written + (['}'] + end)))
    requires ParseLabels(written + (['}'] + end)) == Some((labels, ['}'] + end))
    ensures ParseSample(line) == ParseValue(metric, labels, end)
  {
    var rest := ['{'] + (written + (['}'] + end));
    assert rest[1..] == written + (['}'] + end) && (['}'] + end)[1..] == end;
  }

  lemma {:induction false} EscapeHasNoNewline(value: string)
    ensures Without(Escape(value), '\n')
  {
    if value != [] {
      EscapeHasNoNewline(value[1..]);
    }
  }

  lemma {:induction false} RenderHasNoNewline(labels: seq<Label>)
    requires forall k :: 0 <= k < |labels| ==> Without(labels[k].name, '\n')
    ensures Without(Render(labels), '\n')
  {
    if labels != [] {
      EscapeHasNoNewline(labels[0].value);
      if |labels| > 1 {
        RenderHasNoNewline(labels[1..]);
      }
    }
  }

  /** A sample is one line: its only line break is its end. */
  lemma SampleIsOneLine(metric: string, labels: seq<Label>, value: string)
    requires Without(metric, '\n') && Without(value, '\n') && forall k :: 0 <= k < |labels| ==> Without(labels[k].name, '\n')
    ensures var line := RenderSample(metric, labels, value);
            line[|line| - 1] == '\n' && Without(line[..|line| - 1], '\n')
  {
    RenderHasNoNewline(labels);
    var written := if Render(labels) == [] then [] else ['{'] + Render(labels) + ['}'];
    var line := RenderSample(metric, labels, value);
    assert line[..|line| - 1] == metric + written + [' '] + value;
  }

  /** A label name with an equals sign can pass for two labels, whatever these are. The names the
      program gives its labels have none. */
  lemma EqualsSignConfuses(a: string, x: string, b: string, y: string)
    ensures Render([Label(a + ['=', QUOTE] + Escape(x) + [QUOTE, ','] + b, y)]) == Render([Label(a, x), Label(b, y)])
  {
    var first, second := Label(a, x), Label(b, y);
    assert [first, second][1..] == [second];
    assert RenderLabel(first) + [','] + RenderLabel(second)
        == (a + ['=', QUOTE] + Escape(x) + [QUOTE, ','] + b) + ['=', QUOTE] + Escape(y) + [QUOTE];
  }

  /** A value is written in quotes, with a backslash before a quote or a backslash and a line break as a
      backslash and an n. */
  lemma ValuesAreQuoted(name: string, c: char)
    ensures RenderLabel(Label(name, [c]))
         == name + "=\"" + (if c == '\"' || c == '\\' then ['\\', c] else if c == '\n' then ['\\', 'n'] else [c]) + "\""
  {
    assert Escape([c]) == EscapeChar(c);
  }
}
