/** The Prometheus text lines both ingesters send to VictoriaMetrics, and the
    push body that carries them.

    The multi-canister ingester writes most lines with `_make_line`, which puts
    a space inside each brace and after each comma (`name{ k="v", k2="v2" }
    value ts`); its raw per-subnet line and every line of the single-canister
    ingester are written without those spaces (`name{k="v",k2="v2"} value ts`),
    and a line without labels there is just `name value ts`. Label values and
    metric values are copied as they are, without escaping. */
module Exposition {
  import opened Base
  import opened Wire
  import opened PyStr
  import opened Decimal

  datatype Style = Spaced | Compact

  /** One metric line: its name, labels in the order they are written, the value
      text and the millisecond timestamp. */
  datatype Sample = Sample(style: Style, name: string, labels: seq<(string, string)>, value: string, ts: int)

  function LabelText(l: (string, string)): string
  {
    l.0 + "=\"" + l.1 + "\""
  }

  function LabelList(labels: seq<(string, string)>, sep: string): string
  {
    if |labels| == 0 then ""
    else if |labels| == 1 then LabelText(labels[0])
    else LabelText(labels[0]) + sep + LabelList(labels[1..], sep)
  }

  function Head(s: Sample): string
  {
    match s.style
    case Spaced => s.name + "{ " + LabelList(s.labels, ", ") + " }"
    case Compact => if s.labels == [] then s.name else s.name + "{" + LabelList(s.labels, ",") + "}"
  }

  /** The text of a metric line (`_make_line` for `Spaced`, the inline f-strings
      for `Compact`). */
  function Render(s: Sample): (r: string)
    ensures |r| > |s.name| && r[..|s.name|] == s.name
    ensures |r| > |IntToString(s.ts)|
      && r[|r| - |IntToString(s.ts)| - 1..] == " " + IntToString(s.ts)
  {
    Head(s) + " " + s.value + " " + IntToString(s.ts)
  }

  /** The body of the import request: the lines joined by newlines, with one
      newline after the last. */
  function Payload(lines: seq<string>): (r: string)
    ensures |r| > 0 && r[|r| - 1] == '\n'
    ensures lines == [] ==> r == "\n"
  {
    Join(lines, "\n") + "\n"
  }

  /** A sample whose pieces cannot be confused with the syntax around them: a
      name without `{`, a value without spaces, label names without `=` and label
      values without `"`. Metric names, principal ids and number texts qualify. */
  predicate Readable(s: Sample)
  {
    '{' !in s.name && ' ' !in s.value
    && forall i :: 0 <= i < |s.labels| ==> '=' !in s.labels[i].0 && '"' !in s.labels[i].1
  }

  /** Reads one label off the front of `s`: the name up to the first `=`, the
      value between the quotes after it, and the text after the closing quote. */
  function ParseLabel(s: string): (r: Option<((string, string), string)>)
    ensures r.Some? ==> |r.value.1| < |s|
  {
    match IndexOf(s, '=')
    case None => None
    case Some(i) =>
      if i + 1 >= |s| || s[i + 1] != '"' then None
      else
        var t := s[i + 2..];
        match IndexOf(t, '"')
        case None => None
        case Some(j) => Some(((s[..i], t[..j]), t[j + 1..]))
  }

  /** Reads the labels back from a label list. */
  function ParseLabels(s: string, sep: string): Option<seq<(string, string)>>
    requires |sep| > 0
    decreases |s|
  {
    if s == "" then Some([])
    else match ParseLabel(s)
      case None => None
      case Some(p) =>
        var after := p.1;
        if after == "" then Some([p.0])
        else if |after| >= |sep| && after[..|sep|] == sep then
          match ParseLabels(after[|sep|..], sep)
          case None => None
          case Some(ls) => Some([p.0] + ls)
        else None
  }

  /** The text between the braces of a head, as each style writes it. */
  function Inner(labels: seq<(string, string)>, style: Style): string
  {
    match style
    case Spaced => " " + LabelList(labels, ", ") + " "
    case Compact => LabelList(labels, ",")
  }

  /** Reads the labels back from the text between the braces. */
  function ParseInner(inner: string, style: Style): Option<seq<(string, string)>>
  {
    match style
    case Compact => ParseLabels(inner, ",")
    case Spaced =>
      if |inner| < 2 || inner[0] != ' ' || inner[|inner| - 1] != ' ' then None
      else ParseLabels(inner[1..|inner| - 1], ", ")
  }

  function ParseHead(head: string, style: Style): Option<(string, seq<(string, string)>)>
  {
    match IndexOf(head, '{')
    case None => if style == Compact then Some((head, [])) else None
    case Some(i) =>
      var body := head[i + 1..];
      if |body| == 0 || body[|body| - 1] != '}' then None
      else match ParseInner(body[..|body| - 1], style)
        case None => None
        case Some(ls) => Some((head[..i], ls))
  }

  predicate IsIntText(s: string)
  {
    |s| > 0 && (s[0] == '-' ==> |s| > 1)
    && forall k :: 0 <= k < |s| ==> IsDigit(s[k]) || (k == 0 && s[k] == '-')
  }

  /** Reads a metric line of the given style: the timestamp after the last space,
      the value before it, and the name and labels in front. */
  function ParseLine(line: string, style: Style): Option<Sample>
  {
    match LastIndexOf(line, ' ')
    case None => None
    case Some(j) =>
      var tsText := line[j + 1..];
      var rest := line[..j];
      if !IsIntText(tsText) then None
      else match LastIndexOf(rest, ' ')
        case None => None
        case Some(k) =>
          match ParseHead(rest[..k], style)
          case None => None
          case Some(h) => Some(Sample(style, h.0, h.1, rest[k + 1..], ParseInt(tsText)))
  }

  /** A label written by `LabelText` is read back whole, and reading stops
      right after its closing quote. */
  lemma ParseLabelOf(k: string, v: string, tail: string)
    requires '=' !in k && '"' !in v
    ensures ParseLabel(LabelText((k, v)) + tail) == Some(((k, v), tail))
  {
    var s := LabelText((k, v)) + tail;
    assert s == k + ['='] + ("\"" + v + "\"" + tail);
    IndexOfAt(k, '=', "\"" + v + "\"" + tail);
    assert s[..|k|] == k;
    var t := s[|k| + 2..];
    assert t == v + ['"'] + tail;
    IndexOfAt(v, '"', tail);
    assert t[..|v|] == v;
    assert t[|v| + 1..] == tail;
  }

  lemma LabelListCons(ls: seq<(string, string)>, sep: string)
    requires |ls| > 0
    ensures LabelList(ls, sep) == LabelText(ls[0]) + (if |ls| == 1 then "" else sep + LabelList(ls[1..], sep))
  {
  }

  /** One step of `ParseLabels`, after a label has been read. */
  lemma ParseLabelsUnfold(s: string, sep: string, l: (string, string), after: string)
    requires |sep| > 0 && s != "" && ParseLabel(s) == Some((l, after))
    ensures after == "" ==> ParseLabels(s, sep) == Some([l])
    ensures after != "" && |after| >= |sep| && after[..|sep|] == sep ==>
      ParseLabels(s, sep) == match ParseLabels(after[|sep|..], sep) case None => None case Some(ls) => Some([l] + ls)
  {
  }

  /** The first label of a written list parses off, leaving the separator
      and the rest of the list. */
  lemma ParseLabelsHead(ls: seq<(string, string)>, sep: string)
    requires |sep| > 0 && |ls| > 0 && '=' !in ls[0].0 && '"' !in ls[0].1
    ensures var tail := if |ls| == 1 then "" else sep + LabelList(ls[1..], sep);
      ParseLabels(LabelList(ls, sep), sep)
        == if |ls| == 1 then Some([ls[0]])
           else match ParseLabels(LabelList(ls[1..], sep), sep) case None => None case Some(rest) => Some([ls[0]] + rest)
  {
    var tail := if |ls| == 1 then "" else sep + LabelList(ls[1..], sep);
    var s := LabelList(ls, sep);
    LabelListCons(ls, sep);
    assert s == LabelText(ls[0]) + tail;
    ParseLabelOf(ls[0].0, ls[0].1, tail);
    assert ls[0] == (ls[0].0, ls[0].1);
    ParseLabelsUnfold(s, sep, ls[0], tail);
    if |ls| > 1 {
      assert tail[..|sep|] == sep && tail[|sep|..] == LabelList(ls[1..], sep);
    }
  }

  lemma HeadTail<T>(s: seq<T>)
    requires |s| > 0
    ensures [s[0]] + s[1..] == s
  {
  }

  /** A single label parses back. */
  lemma ParseLabelsOne(ls: seq<(string, string)>, sep: string)
    requires |sep| > 0 && |ls| == 1 && '=' !in ls[0].0 && '"' !in ls[0].1
    ensures ParseLabels(LabelList(ls, sep), sep) == Some(ls)
  {
    ParseLabelsHead(ls, sep);
    assert ls == [ls[0]];
  }

  /** A longer list parses back once its tail does. */
  lemma ParseLabelsCons(ls: seq<(string, string)>, sep: string)
    requires |sep| > 0 && |ls| > 1 && '=' !in ls[0].0 && '"' !in ls[0].1
    requires ParseLabels(LabelList(ls[1..], sep), sep) == Some(ls[1..])
    ensures ParseLabels(LabelList(ls, sep), sep) == Some(ls)
  {
    ParseLabelsHead(ls, sep);
    HeadTail(ls);
  }

  lemma {:induction false} ParseLabelsInverse(ls: seq<(string, string)>, sep: string)
    requires |sep| > 0
    requires forall i :: 0 <= i < |ls| ==> '=' !in ls[i].0 && '"' !in ls[i].1
    ensures ParseLabels(LabelList(ls, sep), sep) == Some(ls)
  {
    if |ls| == 1 {
      ParseLabelsOne(ls, sep);
    } else if |ls| > 1 {
      ParseLabelsInverse(ls[1..], sep);
      ParseLabelsCons(ls, sep);
    }
  }

  /** Splitting a head at its first `{`: the name before it and the text up to
      the closing `}` after it. */
  lemma BraceSplit(name: string, inner: string)
    requires '{' !in name
    ensures var head := name + "{" + inner + "}";
      IndexOf(head, '{') == Some(|name|) && head[..|name|] == name && head[|name| + 1..] == inner + "}"
  {
    var head := name + "{" + inner + "}";
    assert head == name + ['{'] + (inner + "}");
    IndexOfAt(name, '{', inner + "}");
    assert head[..|name|] == name;
  }

  lemma ParseInnerInverse(labels: seq<(string, string)>, style: Style)
    requires forall i :: 0 <= i < |labels| ==> '=' !in labels[i].0 && '"' !in labels[i].1
    ensures ParseInner(Inner(labels, style), style) == Some(labels)
  {
    match style
    case Compact =>
      ParseLabelsInverse(labels, ",");
    case Spaced =>
      var inner := Inner(labels, style);
      assert inner[1..|inner| - 1] == LabelList(labels, ", ");
      ParseLabelsInverse(labels, ", ");
  }

  lemma ParseHeadInverse(s: Sample)
    requires Readable(s)
    ensures ParseHead(Head(s), s.style) == Some((s.name, s.labels))
  {
    if s.style == Spaced || s.labels != [] {
      var inner := Inner(s.labels, s.style);
      assert Head(s) == s.name + "{" + inner + "}";
      ParseBraced(s.name, inner, s.style);
      ParseInnerInverse(s.labels, s.style);
    }
  }

  /** A head with braces splits at the first brace into the name and what the
      braces hold. */
  lemma ParseBraced(name: string, inner: string, style: Style)
    requires '{' !in name
    ensures ParseHead(name + "{" + inner + "}", style)
      == match ParseInner(inner, style)
         case None => None
         case Some(ls) => Some((name, ls))
  {
    BraceSplit(name, inner);
    assert (inner + "}")[..|inner|] == inner;
  }

  /** The two spaces that `ParseLine` looks for are the last two of the line. */
  lemma SplitLine(head: string, value: string, tsText: string)
    requires ' ' !in value && ' ' !in tsText
    ensures var line := head + " " + value + " " + tsText;
      var j := |head| + 1 + |value|;
      LastIndexOf(line, ' ') == Some(j) && line[j + 1..] == tsText && line[..j] == head + " " + value
  {
    var rest := head + " " + value;
    assert head + " " + value + " " + tsText == rest + [' '] + tsText;
    LastIndexOfAt(rest, ' ', tsText);
    var line := rest + [' '] + tsText;
    assert line[..|rest|] == rest;
  }

  lemma SplitRest(head: string, value: string)
    requires ' ' !in value
    ensures var rest := head + " " + value;
      LastIndexOf(rest, ' ') == Some(|head|) && rest[..|head|] == head && rest[|head| + 1..] == value
  {
    assert head + " " + value == head + [' '] + value;
    LastIndexOfAt(head, ' ', value);
  }

  /** Every line can be read back: the name, the labels in order, the value and
      the timestamp are all recovered, so all of them reach the receiver intact. */
  lemma RenderInverse(s: Sample)
    requires Readable(s)
    ensures ParseLine(Render(s), s.style) == Some(s)
  {
    var head := Head(s);
    var tsText := IntToString(s.ts);
    TimestampText(s.ts);
    var line := Render(s);
    assert line == head + " " + s.value + " " + tsText;
    SplitLine(head, s.value, tsText);
    var j := |head| + 1 + |s.value|;
    var rest := line[..j];
    assert rest == head + " " + s.value;
    SplitRest(head, s.value);
    ParseHeadInverse(s);
    assert ParseHead(rest[..|head|], s.style) == Some((s.name, s.labels));
  }

  /** The text of a timestamp is an integer text without spaces that reads back
      as the timestamp. */
  lemma TimestampText(ts: int)
    ensures IsIntText(IntToString(ts)) && ' ' !in IntToString(ts) && ParseInt(IntToString(ts)) == ts
  {
    IntToStringInverse(ts);
  }

  /** Two readable samples of the same style never render to the same line. */
  lemma RenderInjective(s1: Sample, s2: Sample)
    requires Readable(s1) && Readable(s2) && s1.style == s2.style
    requires Render(s1) == Render(s2)
    ensures s1 == s2
  {
    RenderInverse(s1);
    RenderInverse(s2);
  }

  /** The texts of a list of samples, in order. */
  function RenderAll(ss: seq<Sample>): (ls: seq<string>)
    ensures |ls| == |ss|
    ensures forall i :: 0 <= i < |ss| ==> ls[i] == Render(ss[i])
  {
    seq(|ss|, i requires 0 <= i < |ss| => Render(ss[i]))
  }

  lemma RenderAllAppend(a: seq<Sample>, b: seq<Sample>)
    ensures RenderAll(a + b) == RenderAll(a) + RenderAll(b)
  {
  }

  lemma RenderAllTwo(a: Sample, b: Sample)
    ensures RenderAll([a, b]) == [Render(a), Render(b)]
  {
  }

  /** `Then(ss, r)`: the lines `ss` already written, followed by what `r`
      produces, unless `r` raises. */
  function Then(ss: seq<Sample>, r: Result<seq<Sample>, PyError>): Result<seq<Sample>, PyError>
  {
    if r.Ok? then Ok(ss + r.value) else r
  }

  lemma ThenNothing(r: Result<seq<Sample>, PyError>)
    ensures Then([], r) == r
  {
    if r.Ok? {
      assert [] + r.value == r.value;
    }
  }

  lemma ThenThen(a: seq<Sample>, b: seq<Sample>, r: Result<seq<Sample>, PyError>)
    ensures Then(a, Then(b, r)) == Then(a + b, r)
  {
    if r.Ok? {
      assert a + (b + r.value) == (a + b) + r.value;
    }
  }

  /** One step of a loop that has written the lines `ss`, writes those of `p`
      and goes on with `rest`. */
  lemma ThenStep(whole: Result<seq<Sample>, PyError>, ss: seq<Sample>, p: seq<Sample>, rest: Result<seq<Sample>, PyError>)
    requires whole == Then(ss, Then(p, rest))
    ensures whole == Then(ss + p, rest)
    ensures RenderAll(ss + p) == RenderAll(ss) + RenderAll(p)
  {
    ThenThen(ss, p, rest);
    RenderAllAppend(ss, p);
  }

  /** The end of such a loop: nothing more to write. */
  lemma ThenDone(whole: Result<seq<Sample>, PyError>, ss: seq<Sample>, lines: seq<string>)
    requires whole == Then(ss, Ok([])) && lines == RenderAll(ss)
    ensures Rendered(whole) == Ok(lines)
  {
    assert ss + [] == ss;
  }

  function Rendered(r: Result<seq<Sample>, PyError>): Result<seq<string>, PyError>
  {
    if r.Ok? then Ok(RenderAll(r.value)) else Err(r.error)
  }

  /** How many samples have the given name and exactly the given labels. */
  function Count(ss: seq<Sample>, name: string, labels: seq<(string, string)>): nat
  {
    if |ss| == 0 then 0
    else (if ss[0].name == name && ss[0].labels == labels then 1 else 0) + Count(ss[1..], name, labels)
  }

  lemma {:induction false} CountAppend(a: seq<Sample>, b: seq<Sample>, name: string, labels: seq<(string, string)>)
    ensures Count(a + b, name, labels) == Count(a, name, labels) + Count(b, name, labels)
  {
    if |a| > 0 {
      assert (a + b)[1..] == a[1..] + b;
      CountAppend(a[1..], b, name, labels);
    } else {
      assert a + b == b;
    }
  }

  /** No sample of that name: none counted. */
  lemma {:induction false} CountOtherNames(ss: seq<Sample>, name: string, labels: seq<(string, string)>)
    requires forall i :: 0 <= i < |ss| ==> ss[i].name != name
    ensures Count(ss, name, labels) == 0
  {
    if |ss| > 0 {
      CountOtherNames(ss[1..], name, labels);
    }
  }

  /** The receiver's view of a body: the texts between newlines, the newline after
      the last line ending the last one. */
  function BodyLines(p: string): seq<string>
    decreases |p|
  {
    if p == "" then []
    else match IndexOf(p, '\n')
      case None => [p]
      case Some(i) => [p[..i]] + BodyLines(p[i + 1..])
  }

  lemma PayloadCons(lines: seq<string>)
    requires |lines| > 0
    ensures Payload(lines) == lines[0] + ['\n'] + (if |lines| == 1 then "" else Payload(lines[1..]))
  {
    if |lines| > 1 {
      assert Join(lines, "\n") == lines[0] + "\n" + Join(lines[1..], "\n");
    }
  }

  /** The first line of a body ends at its first newline. */
  lemma BodyLinesCons(line: string, rest: string)
    requires '\n' !in line
    ensures BodyLines(line + ['\n'] + rest) == [line] + BodyLines(rest)
  {
    var p := line + ['\n'] + rest;
    IndexOfAt(line, '\n', rest);
    assert p[..|line|] == line;
    assert p[|line| + 1..] == rest;
  }

  /** A body made of lines without newlines reads back as exactly those lines. */
  lemma {:induction false} PayloadInverse(lines: seq<string>)
    requires |lines| > 0
    requires forall i :: 0 <= i < |lines| ==> '\n' !in lines[i]
    ensures BodyLines(Payload(lines)) == lines
  {
    var rest := if |lines| == 1 then "" else Payload(lines[1..]);
    PayloadCons(lines);
    BodyLinesCons(lines[0], rest);
    if |lines| > 1 {
      PayloadInverse(lines[1..]);
      assert lines == [lines[0]] + lines[1..];
    } else {
      assert BodyLines("") == [];
    }
  }

  /** Samples that are all readable, none with a newline in its text. */
  predicate AllReadable(ss: seq<Sample>)
  {
    forall i :: 0 <= i < |ss| ==> Readable(ss[i]) && '\n' !in Render(ss[i])
  }

  /** A body made of readable samples, none with a newline in its text, reads
      back as those samples, one per line, in order. */
  lemma BodyReadsBack(ss: seq<Sample>)
    requires |ss| > 0
    requires AllReadable(ss)
    ensures |BodyLines(Payload(RenderAll(ss)))| == |ss|
    ensures forall i :: 0 <= i < |ss| ==> ParseLine(BodyLines(Payload(RenderAll(ss)))[i], ss[i].style) == Some(ss[i])
  {
    PayloadInverse(RenderAll(ss));
    forall i | 0 <= i < |ss| ensures ParseLine(Render(ss[i]), ss[i].style) == Some(ss[i]) {
      RenderInverse(ss[i]);
    }
  }
}
