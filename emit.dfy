/** The provider and node lines, which both ingesters build the same way from
    the same fields: `nodes_count`, the two totals, then the failure rates of
    each node that reports metrics. The two differ only in how a line is
    written, which `Format` records. */
module Emit {
  import opened Base
  import opened Wire
  import opened PyDict
  import opened Decimal
  import opened Exposition
  import opened Rewards

  /** How an ingester writes its lines: the multi-canister one through
      `add_line_helper`, with `_make_line`'s spacing and the canister label
      first; the single-canister one inline, without spaces and without a
      canister label. */
  datatype Format = Labelled(canister: string) | Inline

  function Prefix(fmt: Format): seq<(string, string)>
  {
    match fmt
    case Labelled(c) => [("canister_id", c)]
    case Inline => []
  }

  function StyleOf(fmt: Format): Style
  {
    match fmt
    case Labelled(_) => Spaced
    case Inline => Compact
  }

  /** A line with the labels of the call after the format's own. */
  function Line(fmt: Format, name: string, value: string, ts: int, labels: seq<(string, string)>): Sample
  {
    Sample(StyleOf(fmt), name, Prefix(fmt) + labels, value, ts)
  }

  predicate NoCanisterLabel(labels: seq<(string, string)>)
  {
    forall j :: 0 <= j < |labels| ==> labels[j].0 != "canister_id"
  }

  /** A sample written in the format at time `ts`: a labelled one has the
      canister label first, an inline one has no canister label at all. */
  predicate Fits(s: Sample, fmt: Format, ts: int)
  {
    s.ts == ts && s.style == StyleOf(fmt)
    && match fmt
       case Labelled(c) => |s.labels| > 0 && s.labels[0] == ("canister_id", c)
       case Inline => NoCanisterLabel(s.labels)
  }

  predicate Shaped(ss: seq<Sample>, fmt: Format, ts: int)
  {
    forall i :: 0 <= i < |ss| ==> Fits(ss[i], fmt, ts)
  }

  predicate NamedIn(ss: seq<Sample>, names: set<string>)
  {
    forall i :: 0 <= i < |ss| ==> ss[i].name in names
  }

  lemma ShapedAppend(a: seq<Sample>, b: seq<Sample>, fmt: Format, ts: int)
    requires Shaped(a, fmt, ts) && Shaped(b, fmt, ts)
    ensures Shaped(a + b, fmt, ts)
  {
    forall i | 0 <= i < |a + b|
      ensures (a + b)[i] == if i < |a| then a[i] else b[i - |a|]
    {
    }
  }

  lemma NamedAppend(a: seq<Sample>, b: seq<Sample>, na: set<string>, nb: set<string>)
    requires NamedIn(a, na) && NamedIn(b, nb)
    ensures NamedIn(a + b, na + nb)
  {
    forall i | 0 <= i < |a + b|
      ensures (a + b)[i] == if i < |a| then a[i] else b[i - |a|]
    {
    }
  }

  const NodeNames: set<string> := {"original_failure_rate", "relative_failure_rate"}
  const ProviderNames: set<string> :=
    {"nodes_count", "total_base_rewards_xdr_permyriad", "total_adjusted_rewards_xdr_permyriad"} + NodeNames
  /** A line for an optional value, written only when the value is not None. */
  function OptionalLine(fmt: Format, name: string, v: Value, ts: int, labels: seq<(string, string)>): (r: Result<seq<Sample>, PyError>)
    ensures r.Err? ==> r.error == Malformed
    ensures r.Ok? <==> v == Null || Str(v).Ok?
    ensures r.Ok? ==> r.value == if v == Null then [] else [Line(fmt, name, Str(v).value, ts, labels)]
  {
    if v == Null then Ok([]) else var t :- Str(v); Ok([Line(fmt, name, t, ts, labels)])
  }

  /** The failure-rate lines of one node. */
  function NodeLines(fmt: Format, pid: string, node: Value, ts: int): (r: Result<seq<Sample>, PyError>)
    ensures r.Err? ==> r.error == Malformed
    ensures r.Ok? ==> NodeOf(node).Ok? && r == NodeFactsLines(fmt, pid, NodeOf(node).value, ts)
    ensures r.Ok? && r.value != [] ==> ReportsMetrics(node)
  {
    var f :- NodeOf(node);
    NodeFactsLines(fmt, pid, f, ts)
  }

  /** The lines of a node from the fields read off its entry: none for a node
      that reports no metrics. */
  function NodeFactsLines(fmt: Format, pid: string, f: Option<NodeFacts>, ts: int): (r: Result<seq<Sample>, PyError>)
    ensures r.Err? ==> r.error == Malformed
    ensures f.None? ==> r == Ok([])
  {
    if f.None? then Ok([])
    else
      var labels := [("provider_id", pid), ("node_id", f.value.nodeId), ("subnet_id", f.value.subnetId)];
      var o :- OptionalLine(fmt, "original_failure_rate", f.value.original, ts, labels);
      var r :- OptionalLine(fmt, "relative_failure_rate", f.value.relative, ts, labels);
      Ok(o + r)
  }

  /** A node that reports metrics gets at most one `original_failure_rate` line,
      first, and at most one `relative_failure_rate` line, each exactly when its
      unwrapped rate is not None, all labelled canister, provider, node, subnet. */
  lemma NodeLinesShape(fmt: Format, pid: string, node: Value, ts: int)
    requires NodeLines(fmt, pid, node, ts).Ok?
    ensures var r := NodeLines(fmt, pid, node, ts).value;
      Shaped(r, fmt, ts) && NamedIn(r, NodeNames)
      && (ReportsMetrics(node) ==>
        var f := NodeOf(node).value.value;
        var labels := Prefix(fmt) + [("provider_id", pid), ("node_id", f.nodeId), ("subnet_id", f.subnetId)];
        (forall i :: 0 <= i < |r| ==> r[i].labels == labels)
        && Count(r, "original_failure_rate", labels) == (if f.original != Null then 1 else 0)
        && Count(r, "relative_failure_rate", labels) == (if f.relative != Null then 1 else 0)
        && (f.original != Null ==> r[0].name == "original_failure_rate"))
  {
    var f := NodeOf(node).value;
    if f.Some? {
      NodeFactsShape(fmt, pid, f.value, ts);
    }
  }

  lemma NodeFactsShape(fmt: Format, pid: string, f: NodeFacts, ts: int)
    requires NodeFactsLines(fmt, pid, Some(f), ts).Ok?
    ensures var r := NodeFactsLines(fmt, pid, Some(f), ts).value;
      var labels := Prefix(fmt) + [("provider_id", pid), ("node_id", f.nodeId), ("subnet_id", f.subnetId)];
      Shaped(r, fmt, ts) && NamedIn(r, NodeNames)
      && (forall i :: 0 <= i < |r| ==> r[i].labels == labels)
      && Count(r, "original_failure_rate", labels) == (if f.original != Null then 1 else 0)
      && Count(r, "relative_failure_rate", labels) == (if f.relative != Null then 1 else 0)
      && (f.original != Null ==> r[0].name == "original_failure_rate")
  {
    var labels := [("provider_id", pid), ("node_id", f.nodeId), ("subnet_id", f.subnetId)];
    var o := OptionalLine(fmt, "original_failure_rate", f.original, ts, labels).value;
    var r := OptionalLine(fmt, "relative_failure_rate", f.relative, ts, labels).value;
    assert NodeFactsLines(fmt, pid, Some(f), ts).value == o + r;
    RateLines(o, r, fmt, ts, Prefix(fmt) + labels);
  }

  /** At most one line of each rate, the original first, all with the same
      labels. */
  lemma RateLines(o: seq<Sample>, r: seq<Sample>, fmt: Format, ts: int, labels: seq<(string, string)>)
    requires |o| <= 1 && |r| <= 1
    requires forall i :: 0 <= i < |o| ==> o[i] == Sample(StyleOf(fmt), "original_failure_rate", labels, o[i].value, ts)
    requires forall i :: 0 <= i < |r| ==> r[i] == Sample(StyleOf(fmt), "relative_failure_rate", labels, r[i].value, ts)
    requires Fits(Sample(StyleOf(fmt), "", labels, "", ts), fmt, ts)
    ensures Shaped(o + r, fmt, ts) && NamedIn(o + r, NodeNames)
    ensures forall i :: 0 <= i < |o + r| ==> (o + r)[i].labels == labels
    ensures Count(o + r, "original_failure_rate", labels) == |o|
    ensures Count(o + r, "relative_failure_rate", labels) == |r|
    ensures |o| == 1 ==> (o + r)[0].name == "original_failure_rate"
  {
    CountAppend(o, r, "original_failure_rate", labels);
    CountAppend(o, r, "relative_failure_rate", labels);
    if |o| == 1 {
      assert o[1..] == [];
    }
    if |r| == 1 {
      assert r[1..] == [];
    }
  }

  /** Every node entry has the fields its lines need. */
  predicate NodesWellFormed(fmt: Format, pid: string, nodes: seq<Value>, ts: int)
  {
    forall i :: 0 <= i < |nodes| ==> NodeLines(fmt, pid, nodes[i], ts).Ok?
  }

  function NodesLines(fmt: Format, pid: string, nodes: seq<Value>, ts: int): (r: Result<seq<Sample>, PyError>)
    ensures r.Err? ==> r.error == Malformed
    ensures r.Ok? <==> NodesWellFormed(fmt, pid, nodes, ts)
    decreases |nodes|
  {
    if |nodes| == 0 then Ok([])
    else
      assert forall i :: 1 <= i < |nodes| ==> nodes[1..][i - 1] == nodes[i];
      var first :- NodeLines(fmt, pid, nodes[0], ts);
      Then(first, NodesLines(fmt, pid, nodes[1..], ts))
  }

  /** `NodesLines` from position `i` on: the node there, then the rest. */
  lemma NodesLinesAt(fmt: Format, pid: string, nodes: seq<Value>, ts: int, i: nat)
    requires i < |nodes|
    ensures NodeLines(fmt, pid, nodes[i], ts).Err? ==> NodesLines(fmt, pid, nodes[i..], ts) == Err(Malformed)
    ensures NodeLines(fmt, pid, nodes[i], ts).Ok? ==>
      NodesLines(fmt, pid, nodes[i..], ts) == Then(NodeLines(fmt, pid, nodes[i], ts).value, NodesLines(fmt, pid, nodes[i + 1..], ts))
  {
    assert nodes[i..][0] == nodes[i] && nodes[i..][1..] == nodes[i + 1..];
  }

  /** The lines of a node list all belong to nodes. */
  lemma {:induction false} NodesLinesShape(fmt: Format, pid: string, nodes: seq<Value>, ts: int)
    requires NodesLines(fmt, pid, nodes, ts).Ok?
    ensures Shaped(NodesLines(fmt, pid, nodes, ts).value, fmt, ts)
    ensures NamedIn(NodesLines(fmt, pid, nodes, ts).value, NodeNames)
  {
    if |nodes| > 0 {
      NodeLinesShape(fmt, pid, nodes[0], ts);
      NodesLinesShape(fmt, pid, nodes[1..], ts);
    }
  }

  /** The lines of one provider: `nodes_count`, the two totals when present,
      then the lines of its nodes. */
  function ProviderLines(fmt: Format, pid: string, pr: Value, ts: int): (r: Result<seq<Sample>, PyError>)
    ensures r.Err? ==> r.error == Malformed
    ensures r.Ok? ==>
      (ProviderOf(pr).Ok? && |r.value| > 0
       && r.value[0] == Line(fmt, "nodes_count", IntToString(ProviderOf(pr).value.nodesCount), ts, [("provider_id", pid)]))
  {
    var f :- ProviderOf(pr);
    FactsLines(fmt, pid, f, ts)
  }

  lemma ProviderLinesFacts(fmt: Format, pid: string, pr: Value, ts: int)
    requires ProviderLines(fmt, pid, pr, ts).Ok?
    ensures ProviderOf(pr).Ok? && ProviderLines(fmt, pid, pr, ts) == FactsLines(fmt, pid, ProviderOf(pr).value, ts)
  {
  }

  /** The lines of a provider from the fields read off its entry. */
  function FactsLines(fmt: Format, pid: string, f: ProviderFacts, ts: int): (r: Result<seq<Sample>, PyError>)
    ensures r.Err? ==> r.error == Malformed
    ensures r.Ok? ==> |r.value| > 0 && r.value[0] == Line(fmt, "nodes_count", IntToString(f.nodesCount), ts, [("provider_id", pid)])
  {
    var pl := [("provider_id", pid)];
    var b :- OptionalLine(fmt, "total_base_rewards_xdr_permyriad", f.base, ts, pl);
    var a :- OptionalLine(fmt, "total_adjusted_rewards_xdr_permyriad", f.adjusted, ts, pl);
    var ns :- NodesLines(fmt, pid, f.nodes, ts);
    Ok([Line(fmt, "nodes_count", IntToString(f.nodesCount), ts, pl)] + b + a + ns)
  }

  /** The lines of one provider belong to it and to its canister. */
  lemma ProviderLinesShaped(fmt: Format, pid: string, pr: Value, ts: int)
    requires ProviderLines(fmt, pid, pr, ts).Ok?
    ensures Shaped(ProviderLines(fmt, pid, pr, ts).value, fmt, ts)
    ensures NamedIn(ProviderLines(fmt, pid, pr, ts).value, ProviderNames)
  {
    ProviderLinesFacts(fmt, pid, pr, ts);
    FactsLinesShaped(fmt, pid, ProviderOf(pr).value, ts);
  }

  /** `ProviderLinesShaped`, from the fields read off the entry. */
  lemma FactsLinesShaped(fmt: Format, pid: string, f: ProviderFacts, ts: int)
    requires FactsLines(fmt, pid, f, ts).Ok?
    ensures Shaped(FactsLines(fmt, pid, f, ts).value, fmt, ts)
    ensures NamedIn(FactsLines(fmt, pid, f, ts).value, ProviderNames)
  {
    var head, b, a, ns := FactsPieces(fmt, pid, f, ts);
    NodesLinesShape(fmt, pid, f.nodes, ts);
    NamedWiden(ns, NodeNames, ProviderNames);
    assert Shaped(head, fmt, ts) && NamedIn(head, ProviderNames);
    assert Shaped(b, fmt, ts) && NamedIn(b, ProviderNames);
    assert Shaped(a, fmt, ts) && NamedIn(a, ProviderNames);
    ShapedNamedFour(head, b, a, ns, fmt, ts, ProviderNames);
  }

  lemma NamedWiden(ss: seq<Sample>, small: set<string>, large: set<string>)
    requires NamedIn(ss, small) && small <= large
    ensures NamedIn(ss, large)
  {
  }

  /** Four pieces of one shape and one set of names, put together. */
  lemma ShapedNamedFour(p: seq<Sample>, q: seq<Sample>, r: seq<Sample>, t: seq<Sample>, fmt: Format, ts: int, names: set<string>)
    requires Shaped(p, fmt, ts) && Shaped(q, fmt, ts) && Shaped(r, fmt, ts) && Shaped(t, fmt, ts)
    requires NamedIn(p, names) && NamedIn(q, names) && NamedIn(r, names) && NamedIn(t, names)
    ensures Shaped(p + q + r + t, fmt, ts) && NamedIn(p + q + r + t, names)
  {
    ShapedAppend(p, q, fmt, ts);
    ShapedAppend(p + q, r, fmt, ts);
    ShapedAppend(p + q + r, t, fmt, ts);
    NamedAppend(p, q, names, names);
    assert names + names == names;
    NamedAppend(p + q, r, names, names);
    NamedAppend(p + q + r, t, names, names);
  }

  /** The pieces of the lines of a provider's fields: `nodes_count`, the base
      total, the adjusted total, the nodes. */
  lemma FactsPieces(fmt: Format, pid: string, f: ProviderFacts, ts: int)
      returns (head: seq<Sample>, b: seq<Sample>, a: seq<Sample>, ns: seq<Sample>)
    requires FactsLines(fmt, pid, f, ts).Ok?
    ensures FactsLines(fmt, pid, f, ts).value == head + b + a + ns
    ensures head == [Line(fmt, "nodes_count", IntToString(f.nodesCount), ts, [("provider_id", pid)])]
    ensures OptionalLine(fmt, "total_base_rewards_xdr_permyriad", f.base, ts, [("provider_id", pid)]) == Ok(b)
    ensures OptionalLine(fmt, "total_adjusted_rewards_xdr_permyriad", f.adjusted, ts, [("provider_id", pid)]) == Ok(a)
    ensures NodesLines(fmt, pid, f.nodes, ts) == Ok(ns)
  {
    var pl := [("provider_id", pid)];
    head := [Line(fmt, "nodes_count", IntToString(f.nodesCount), ts, pl)];
    b := OptionalLine(fmt, "total_base_rewards_xdr_permyriad", f.base, ts, pl).value;
    a := OptionalLine(fmt, "total_adjusted_rewards_xdr_permyriad", f.adjusted, ts, pl).value;
    ns := NodesLines(fmt, pid, f.nodes, ts).value;
    assert FactsLines(fmt, pid, f, ts) == Ok(head + b + a + ns);
  }

  /** The pieces of a provider's lines: `nodes_count`, the base total, the
      adjusted total, the nodes. */
  lemma ProviderPieces(fmt: Format, pid: string, pr: Value, ts: int)
      returns (head: seq<Sample>, b: seq<Sample>, a: seq<Sample>, ns: seq<Sample>)
    requires ProviderLines(fmt, pid, pr, ts).Ok?
    ensures ProviderLines(fmt, pid, pr, ts).value == head + b + a + ns
    ensures head == [Line(fmt, "nodes_count", IntToString(|ProviderOf(pr).value.nodes|), ts, [("provider_id", pid)])]
    ensures b == OptionalLine(fmt, "total_base_rewards_xdr_permyriad", ProviderOf(pr).value.base, ts, [("provider_id", pid)]).value
    ensures a == OptionalLine(fmt, "total_adjusted_rewards_xdr_permyriad", ProviderOf(pr).value.adjusted, ts, [("provider_id", pid)]).value
    ensures NamedIn(ns, NodeNames)
  {
    ProviderLinesFacts(fmt, pid, pr, ts);
    head, b, a, ns := FactsPieces(fmt, pid, ProviderOf(pr).value, ts);
    NodesLinesShape(fmt, pid, ProviderOf(pr).value.nodes, ts);
  }

  /** Per provider: exactly one `nodes_count` line, and it carries the length
      of `daily_nodes_rewards`. */
  lemma ProviderNodesCount(fmt: Format, pid: string, pr: Value, ts: int)
    requires ProviderLines(fmt, pid, pr, ts).Ok?
    ensures var r := ProviderLines(fmt, pid, pr, ts).value;
      Elements(GetOr(pr, "daily_nodes_rewards", List([]))) == Ok(ProviderOf(pr).value.nodes)
      && r[0].value == IntToString(|ProviderOf(pr).value.nodes|)
      && forall labels :: Count(r, "nodes_count", labels) == if labels == Prefix(fmt) + [("provider_id", pid)] then 1 else 0
  {
    var head, b, a, ns := ProviderPieces(fmt, pid, pr, ts);
    assert head[1..] == [];
    forall labels: seq<(string, string)>
      ensures Count(ProviderLines(fmt, pid, pr, ts).value, "nodes_count", labels)
              == if labels == Prefix(fmt) + [("provider_id", pid)] then 1 else 0
    {
      CountNodesCount(head, b, a, ns, labels);
    }
  }

  /** Per provider: each total line exactly when its unwrapped value is not
      None. */
  lemma ProviderTotals(fmt: Format, pid: string, pr: Value, ts: int)
    requires ProviderLines(fmt, pid, pr, ts).Ok?
    ensures var r := ProviderLines(fmt, pid, pr, ts).value;
      var cl := Prefix(fmt) + [("provider_id", pid)];
      (Count(r, "total_base_rewards_xdr_permyriad", cl) == 1 <==> Field(pr, "total_base_rewards_xdr_permyriad") != Null)
      && (Count(r, "total_adjusted_rewards_xdr_permyriad", cl) == 1 <==> Field(pr, "total_adjusted_rewards_xdr_permyriad") != Null)
      && Count(r, "total_base_rewards_xdr_permyriad", cl) <= 1
      && Count(r, "total_adjusted_rewards_xdr_permyriad", cl) <= 1
  {
    var head, b, a, ns := ProviderPieces(fmt, pid, pr, ts);
    var cl := Prefix(fmt) + [("provider_id", pid)];
    CountBase(head, b, a, ns, cl);
    CountAdjusted(head, b, a, ns, cl);
  }

  lemma CountNodesCount(head: seq<Sample>, b: seq<Sample>, a: seq<Sample>, ns: seq<Sample>, cl: seq<(string, string)>)
    requires NamedIn(b, {"total_base_rewards_xdr_permyriad"})
    requires NamedIn(a, {"total_adjusted_rewards_xdr_permyriad"})
    requires NamedIn(ns, NodeNames)
    ensures Count(head + b + a + ns, "nodes_count", cl) == Count(head, "nodes_count", cl)
  {
    var name := "nodes_count";
    CountAppend(head + b + a, ns, name, cl);
    CountAppend(head + b, a, name, cl);
    CountAppend(head, b, name, cl);
    CountOtherNames(b, name, cl);
    CountOtherNames(a, name, cl);
    CountOtherNames(ns, name, cl);
  }

  lemma CountBase(head: seq<Sample>, b: seq<Sample>, a: seq<Sample>, ns: seq<Sample>, cl: seq<(string, string)>)
    requires NamedIn(head, {"nodes_count"})
    requires NamedIn(a, {"total_adjusted_rewards_xdr_permyriad"})
    requires NamedIn(ns, NodeNames)
    ensures Count(head + b + a + ns, "total_base_rewards_xdr_permyriad", cl) == Count(b, "total_base_rewards_xdr_permyriad", cl)
  {
    var name := "total_base_rewards_xdr_permyriad";
    CountAppend(head + b + a, ns, name, cl);
    CountAppend(head + b, a, name, cl);
    CountAppend(head, b, name, cl);
    CountOtherNames(head, name, cl);
    CountOtherNames(a, name, cl);
    CountOtherNames(ns, name, cl);
  }

  lemma CountAdjusted(head: seq<Sample>, b: seq<Sample>, a: seq<Sample>, ns: seq<Sample>, cl: seq<(string, string)>)
    requires NamedIn(head, {"nodes_count"})
    requires NamedIn(b, {"total_base_rewards_xdr_permyriad"})
    requires NamedIn(ns, NodeNames)
    ensures Count(head + b + a + ns, "total_adjusted_rewards_xdr_permyriad", cl) == Count(a, "total_adjusted_rewards_xdr_permyriad", cl)
  {
    var name := "total_adjusted_rewards_xdr_permyriad";
    CountAppend(head + b + a, ns, name, cl);
    CountAppend(head + b, a, name, cl);
    CountAppend(head, b, name, cl);
    CountOtherNames(head, name, cl);
    CountOtherNames(b, name, cl);
    CountOtherNames(ns, name, cl);
  }

  /** Every provider entry has the fields its lines need. */
  predicate ProvidersWellFormed(fmt: Format, ps: Dict<Value>, ts: int)
  {
    forall i :: 0 <= i < |ps| ==> ProviderLines(fmt, ps[i].0, ps[i].1, ts).Ok?
  }

  function ProvidersLines(fmt: Format, ps: Dict<Value>, ts: int): (r: Result<seq<Sample>, PyError>)
    ensures r.Err? ==> r.error == Malformed
    ensures r.Ok? <==> ProvidersWellFormed(fmt, ps, ts)
    decreases |ps|
  {
    if |ps| == 0 then Ok([])
    else
      assert forall i :: 1 <= i < |ps| ==> ps[1..][i - 1] == ps[i];
      var first :- ProviderLines(fmt, ps[0].0, ps[0].1, ts);
      Then(first, ProvidersLines(fmt, ps[1..], ts))
  }

  /** One round of the provider loop that has written `ss` and has `rest`
      still to go: a provider that cannot be written fails the whole loop,
      any other adds its lines. */
  lemma ProvidersStep(fmt: Format, ps: Dict<Value>, ts: int, rest: Dict<Value>, ss: seq<Sample>)
    requires rest != [] && ProvidersLines(fmt, ps, ts) == Then(ss, ProvidersLines(fmt, rest, ts))
    ensures ProviderLines(fmt, rest[0].0, rest[0].1, ts).Err? ==> Rendered(ProvidersLines(fmt, ps, ts)) == Err(Malformed)
    ensures ProviderLines(fmt, rest[0].0, rest[0].1, ts).Ok? ==>
      var p := ProviderLines(fmt, rest[0].0, rest[0].1, ts).value;
      ProvidersLines(fmt, ps, ts) == Then(ss + p, ProvidersLines(fmt, rest[1..], ts))
      && RenderAll(ss + p) == RenderAll(ss) + RenderAll(p)
  {
    if ProviderLines(fmt, rest[0].0, rest[0].1, ts).Ok? {
      var p := ProviderLines(fmt, rest[0].0, rest[0].1, ts).value;
      ThenStep(ProvidersLines(fmt, ps, ts), ss, p, ProvidersLines(fmt, rest[1..], ts));
    }
  }

  /** The lines of all providers are written in the format at time `ts`. */
  lemma {:induction false} ProvidersLinesShape(fmt: Format, ps: Dict<Value>, ts: int)
    requires ProvidersLines(fmt, ps, ts).Ok?
    ensures Shaped(ProvidersLines(fmt, ps, ts).value, fmt, ts)
    ensures NamedIn(ProvidersLines(fmt, ps, ts).value, ProviderNames)
  {
    if |ps| > 0 {
      var first := ProviderLines(fmt, ps[0].0, ps[0].1, ts).value;
      var rest := ProvidersLines(fmt, ps[1..], ts).value;
      ProviderLinesShaped(fmt, ps[0].0, ps[0].1, ts);
      ProvidersLinesShape(fmt, ps[1..], ts);
      ShapedAppend(first, rest, fmt, ts);
      NamedAppend(first, rest, ProviderNames, ProviderNames);
    }
  }

  /** Over all providers, each provider id of the dict gets exactly one
      `nodes_count` line and no other id gets one. */
  lemma ProvidersNodesCount(fmt: Format, ps: Dict<Value>, ts: int)
    requires ProvidersLines(fmt, ps, ts).Ok?
    requires UniqueKeys(ps)
    ensures forall pid ::
      Count(ProvidersLines(fmt, ps, ts).value, "nodes_count", Prefix(fmt) + [("provider_id", pid)])
      == if pid in KeySet(ps) then 1 else 0
  {
    forall pid
      ensures Count(ProvidersLines(fmt, ps, ts).value, "nodes_count", Prefix(fmt) + [("provider_id", pid)])
              == if pid in KeySet(ps) then 1 else 0
    {
      ProvidersNodesCountOf(fmt, ps, ts, pid);
    }
  }

  lemma {:induction false} ProvidersNodesCountOf(fmt: Format, ps: Dict<Value>, ts: int, pid: string)
    requires ProvidersLines(fmt, ps, ts).Ok?
    requires UniqueKeys(ps)
    ensures Count(ProvidersLines(fmt, ps, ts).value, "nodes_count", Prefix(fmt) + [("provider_id", pid)])
            == if pid in KeySet(ps) then 1 else 0
  {
    if |ps| > 0 {
      var first, rest := ProvidersLinesSplit(fmt, ps, ts);
      var l := Prefix(fmt) + [("provider_id", pid)];
      NodesCountOfProvider(fmt, ps[0].0, ps[0].1, ts, pid);
      assert UniqueKeys(ps[1..]);
      ProvidersNodesCountOf(fmt, ps[1..], ts, pid);
      KeySetMember(ps[1..], ps[0].0);
      CountAppend(first, rest, "nodes_count", l);
    }
  }

  lemma ProvidersLinesSplit(fmt: Format, ps: Dict<Value>, ts: int) returns (first: seq<Sample>, rest: seq<Sample>)
    requires |ps| > 0 && ProvidersLines(fmt, ps, ts).Ok?
    ensures ProviderLines(fmt, ps[0].0, ps[0].1, ts) == Ok(first)
    ensures ProvidersLines(fmt, ps[1..], ts) == Ok(rest)
    ensures ProvidersLines(fmt, ps, ts).value == first + rest
  {
    first := ProviderLines(fmt, ps[0].0, ps[0].1, ts).value;
    rest := ProvidersLines(fmt, ps[1..], ts).value;
  }

  /** One provider's `nodes_count` lines, counted for some provider id. */
  lemma NodesCountOfProvider(fmt: Format, pid0: string, pr: Value, ts: int, pid: string)
    requires ProviderLines(fmt, pid0, pr, ts).Ok?
    ensures Count(ProviderLines(fmt, pid0, pr, ts).value, "nodes_count", Prefix(fmt) + [("provider_id", pid)])
            == if pid == pid0 then 1 else 0
  {
    ProviderNodesCount(fmt, pid0, pr, ts);
    var l := Prefix(fmt) + [("provider_id", pid)];
    var l0 := Prefix(fmt) + [("provider_id", pid0)];
    if pid != pid0 {
      assert l[|l| - 1] != l0[|l0| - 1];
    }
  }

  /** Lines written after `ss` extend its texts by what the next step renders. */
  lemma RenderedThen(ss: seq<Sample>, r: Result<seq<Sample>, PyError>)
    requires r.Ok?
    ensures Rendered(Then(ss, r)) == Ok(RenderAll(ss) + RenderAll(r.value))
  {
    RenderAllAppend(ss, r.value);
  }

  /** The node loop of `push_metrics_for_date`. */
  method EmitNodes(fmt: Format, pid: string, nodes: seq<Value>, ts: int) returns (r: Result<seq<string>, PyError>)
    ensures r == Rendered(NodesLines(fmt, pid, nodes, ts))
  {
    var lines: seq<string> := [];
    ghost var ss: seq<Sample> := [];
    ThenNothing(NodesLines(fmt, pid, nodes, ts));
    var i := 0;
    while i < |nodes|
      invariant 0 <= i <= |nodes|
      invariant lines == RenderAll(ss)
      invariant NodesLines(fmt, pid, nodes, ts) == Then(ss, NodesLines(fmt, pid, nodes[i..], ts))
    {
      NodesLinesAt(fmt, pid, nodes, ts, i);
      var nl := NodeLines(fmt, pid, nodes[i], ts);
      if nl.Err? {
        return Err(Malformed);
      }
      ThenStep(NodesLines(fmt, pid, nodes, ts), ss, nl.value, NodesLines(fmt, pid, nodes[i + 1..], ts));
      lines := lines + RenderAll(nl.value);
      ss := ss + nl.value;
      i := i + 1;
    }
    assert nodes[i..] == [];
    ThenDone(NodesLines(fmt, pid, nodes, ts), ss, lines);
    return Ok(lines);
  }

  /** The body of the provider loop: `nodes_count`, the totals, the nodes. */
  method EmitProvider(fmt: Format, pid: string, pr: Value, ts: int) returns (r: Result<seq<string>, PyError>)
    ensures r == Rendered(ProviderLines(fmt, pid, pr, ts))
  {
    var f := ProviderOf(pr);
    if f.Err? {
      return Err(Malformed);
    }
    var pl := [("provider_id", pid)];
    var head := [Line(fmt, "nodes_count", IntToString(f.value.nodesCount), ts, pl)];
    var b := OptionalLine(fmt, "total_base_rewards_xdr_permyriad", f.value.base, ts, pl);
    if b.Err? {
      return Err(Malformed);
    }
    var a := OptionalLine(fmt, "total_adjusted_rewards_xdr_permyriad", f.value.adjusted, ts, pl);
    if a.Err? {
      return Err(Malformed);
    }
    var nl := EmitNodes(fmt, pid, f.value.nodes, ts);
    if nl.Err? {
      return Err(Malformed);
    }
    RenderedThen(head + b.value + a.value, NodesLines(fmt, pid, f.value.nodes, ts));
    r := Ok(RenderAll(head + b.value + a.value) + nl.value);
  }

  /** The provider loop of `push_metrics_for_date`. */
  method EmitProviders(fmt: Format, ps: Dict<Value>, ts: int) returns (r: Result<seq<string>, PyError>)
    ensures r == Rendered(ProvidersLines(fmt, ps, ts))
  {
    var lines: seq<string> := [];
    ghost var ss: seq<Sample> := [];
    ThenNothing(ProvidersLines(fmt, ps, ts));
    var rest := ps;
    while rest != []
      invariant lines == RenderAll(ss)
      invariant ProvidersLines(fmt, ps, ts) == Then(ss, ProvidersLines(fmt, rest, ts))
      decreases |rest|
    {
      var pl := EmitProvider(fmt, rest[0].0, rest[0].1, ts);
      ProvidersStep(fmt, ps, ts, rest, ss);
      if pl.Err? {
        return Err(Malformed);
      }
      ghost var p := ProviderLines(fmt, rest[0].0, rest[0].1, ts).value;
      lines := lines + pl.value;
      ss := ss + p;
      rest := rest[1..];
    }
    ThenDone(ProvidersLines(fmt, ps, ts), ss, lines);
    return Ok(lines);
  }

}
