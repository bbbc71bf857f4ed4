/** The multi-canister ingester (tools/node-rewards-scheduler): it queries
    every node-rewards canister in turn, writes `_make_line` lines labelled with
    the canister id, and raises on every failure. Canister replies, the
    governance reply, the clock and the HTTP status are inputs. */
module MultiIngester {
  import opened Base
  import opened Wire
  import opened PyDict
  import opened Decimal
  import opened Calendar
  import opened Exposition
  import opened Rewards
  import opened Emit
  /** `get_rewards_daily`: no data for an empty response or an `Err` result,
      a ValueError when the result holds neither `Err` nor `Ok`, and otherwise
      the two pair lists as dicts. `Err` is checked first. */
  function RewardsDaily(response: Value): (r: Result<Fetched, PyError>)
    ensures !Truthy(response) ==> r == Ok(NoData)
    ensures r.Err? ==> r.error == Malformed || r.error == UnexpectedResult
    ensures ReplyValue(response).Ok? && ReplyValue(response).value.Some? ==>
      var v := ReplyValue(response).value.value;
      (v.Record? && "Err" in v.fields ==> r == Ok(NoData))
      && (v.Record? && "Err" !in v.fields && "Ok" !in v.fields ==> r == Err(UnexpectedResult))
      && (v.Record? && "Err" !in v.fields && "Ok" in v.fields ==> r == Normalise(v.fields["Ok"]))
      && (!v.Record? ==> r == Err(Malformed))
  {
    var reply :- ReplyValue(response);
    if reply.None? then Ok(NoData)
    else if !reply.value.Record? then Err(Malformed)
    else if "Err" in reply.value.fields then Ok(NoData)
    else if "Ok" !in reply.value.fields then Err(UnexpectedResult)
    else Normalise(reply.value.fields["Ok"])
  }

  method GetRewardsDaily(response: Value) returns (r: Result<Fetched, PyError>)
    ensures r == RewardsDaily(response)
  {
    var reply := ReplyValue(response);
    if reply.Err? {
      return Err(Malformed);
    }
    if reply.value.None? {
      return Ok(NoData);
    }
    var result := reply.value.value;
    if !result.Record? {
      return Err(Malformed);
    }
    if "Err" in result.fields {
      return Ok(NoData);
    }
    if "Ok" !in result.fields {
      return Err(UnexpectedResult);
    }
    r := NormaliseDaily(result.fields["Ok"]);
  }

  const SubnetNames: set<string> := {"subnet_failure_rate", "subnets_failure_rate"}
  const GovernanceName: string := "governance_latest_reward_event_timestamp_seconds"

  /** All samples carry the timestamp `ts`; the `_make_line` ones start with the
      canister label and the only other kind is the raw per-subnet line. */
  predicate Consistent(ss: seq<Sample>, c: string, ts: int)
  {
    forall i :: 0 <= i < |ss| ==>
      ss[i].ts == ts
      && (ss[i].style == Spaced ==> |ss[i].labels| > 0 && ss[i].labels[0] == ("canister_id", c))
      && (ss[i].style == Compact ==> ss[i].name == "subnet_failure_rate" && |ss[i].labels| == 1 && ss[i].labels[0].0 == "subnet_id")
  }

  lemma ConsistentAppend(a: seq<Sample>, b: seq<Sample>, c: string, ts: int)
    requires Consistent(a, c, ts) && Consistent(b, c, ts)
    ensures Consistent(a + b, c, ts)
  {
    forall i | 0 <= i < |a + b|
      ensures (a + b)[i] == if i < |a| then a[i] else b[i - |a|]
    {
    }
  }

  /** The two lines of one subnet: the raw line without the canister label,
      then the `_make_line` one. */
  function SubnetLines(c: string, sid: string, fr: Value, ts: int): (r: Result<seq<Sample>, PyError>)
    ensures r.Err? ==> r.error == Malformed
    ensures r.Ok? <==> Str(fr).Ok?
    ensures r.Ok? ==> Consistent(r.value, c, ts) && NamedIn(r.value, SubnetNames)
    ensures r.Ok? ==>
      (|r.value| == 2
       && r.value[0] == Sample(Compact, "subnet_failure_rate", [("subnet_id", sid)], Str(fr).value, ts)
       && r.value[1] == Line(Labelled(c), "subnets_failure_rate", Str(fr).value, ts, [("subnet_id", sid)]))
  {
    var t :- Str(fr);
    Ok([Sample(Compact, "subnet_failure_rate", [("subnet_id", sid)], t, ts),
        Line(Labelled(c), "subnets_failure_rate", t, ts, [("subnet_id", sid)])])
  }

  function SubnetsLines(c: string, subnets: Dict<Value>, ts: int): (r: Result<seq<Sample>, PyError>)
    ensures r.Err? ==> r.error == Malformed
    ensures r.Ok? <==> RatesWellFormed(subnets)
    decreases |subnets|
  {
    if |subnets| == 0 then Ok([])
    else
      assert forall i :: 1 <= i < |subnets| ==> subnets[1..][i - 1] == subnets[i];
      var first :- SubnetLines(c, subnets[0].0, subnets[0].1, ts);
      Then(first, SubnetsLines(c, subnets[1..], ts))
  }

  lemma SubnetLinesOk(c: string, sid: string, fr: Value, ts: int)
    requires Str(fr).Ok?
    ensures SubnetLines(c, sid, fr, ts)
      == Ok([Sample(Compact, "subnet_failure_rate", [("subnet_id", sid)], Str(fr).value, ts),
             Line(Labelled(c), "subnets_failure_rate", Str(fr).value, ts, [("subnet_id", sid)])])
  {
  }

  /** `SubnetsLines` from position `i` on: the subnet there, then the rest. */
  lemma SubnetsLinesAt(c: string, subnets: Dict<Value>, ts: int, i: nat)
    requires i < |subnets|
    ensures SubnetLines(c, subnets[i].0, subnets[i].1, ts).Err? ==> SubnetsLines(c, subnets[i..], ts) == Err(Malformed)
    ensures SubnetLines(c, subnets[i].0, subnets[i].1, ts).Ok? ==>
      SubnetsLines(c, subnets[i..], ts)
      == Then(SubnetLines(c, subnets[i].0, subnets[i].1, ts).value, SubnetsLines(c, subnets[i + 1..], ts))
  {
    assert subnets[i..][0] == subnets[i] && subnets[i..][1..] == subnets[i + 1..];
  }

  function GovernanceLines(c: string, gov: Option<Number>, ts: int): (r: seq<Sample>)
    ensures Consistent(r, c, ts) && NamedIn(r, {GovernanceName})
  {
    if gov.Some? then [Line(Labelled(c), GovernanceName, gov.value.text, ts, [])] else []
  }

  /** What one node-rewards canister contributes: its daily results, and the
      governance reply received while its lines were written. */
  datatype ClientReply = ClientReply(canisterId: string, rewards: Value, governance: Value)

  /** The lines of one iteration of the client loop. */
  function ClientLines(cr: ClientReply, ts: int): (r: Result<seq<Sample>, PyError>)
    ensures RewardsDaily(cr.rewards) == Ok(NoData) ==> r == Err(NoDataAvailable)
    ensures r.Err? ==> r.error != NoMetrics
  {
    var f :- RewardsDaily(cr.rewards);
    if f.NoData? then Err(NoDataAvailable)
    else
      var ps :- ProvidersLines(Labelled(cr.canisterId), f.providers, ts);
      var ss :- SubnetsLines(cr.canisterId, f.subnets, ts);
      var gov :- GovernanceTimestamp(cr.governance);
      Ok(ps + ss + GovernanceLines(cr.canisterId, gov, ts))
  }

  /** Every client's section comes out. */
  predicate ClientsWellFormed(clients: seq<ClientReply>, ts: int)
  {
    forall k :: 0 <= k < |clients| ==> ClientLines(clients[k], ts).Ok?
  }

  lemma ClientsWellFormedCons(clients: seq<ClientReply>, ts: int)
    requires |clients| > 0
    ensures ClientsWellFormed(clients, ts)
      <==> ClientLines(clients[0], ts).Ok? && ClientsWellFormed(clients[1..], ts)
  {
    assert forall k :: 1 <= k < |clients| ==> clients[1..][k - 1] == clients[k];
  }

  /** The lines of all clients, in client order. They come out exactly when
      every client's section does, and every line carries the timestamp of the
      date. */
  function AllLines(clients: seq<ClientReply>, ts: int): (r: Result<seq<Sample>, PyError>)
    ensures r.Err? ==> r.error != NoMetrics
    ensures r.Ok? <==> ClientsWellFormed(clients, ts)
    ensures r.Ok? ==> Stamped(r.value, ts)
    decreases |clients|
  {
    if |clients| == 0 then Ok([])
    else
      ClientsWellFormedCons(clients, ts);
      var first :- ClientLines(clients[0], ts);
      ClientLinesConsistent(clients[0], ts);
      ThenStamped(first, AllLines(clients[1..], ts), ts);
      Then(first, AllLines(clients[1..], ts))
  }

  /** Every line carries the timestamp `ts`. */
  predicate Stamped(ss: seq<Sample>, ts: int)
  {
    forall i :: 0 <= i < |ss| ==> ss[i].ts == ts
  }

  lemma ThenStamped(first: seq<Sample>, rest: Result<seq<Sample>, PyError>, ts: int)
    requires Stamped(first, ts) && (rest.Ok? ==> Stamped(rest.value, ts))
    ensures Then(first, rest).Ok? ==> Stamped(Then(first, rest).value, ts)
  {
    if rest.Ok? {
      forall i | 0 <= i < |first + rest.value|
        ensures (first + rest.value)[i] == if i < |first| then first[i] else rest.value[i - |first|]
      {
      }
    }
  }

  /** `AllLines` from position `k` on: the client there, then the rest. */
  lemma AllLinesAt(clients: seq<ClientReply>, ts: int, k: nat)
    requires k < |clients|
    ensures ClientLines(clients[k], ts).Err? ==> AllLines(clients[k..], ts) == ClientLines(clients[k], ts)
    ensures ClientLines(clients[k], ts).Ok? ==>
      AllLines(clients[k..], ts) == Then(ClientLines(clients[k], ts).value, AllLines(clients[k + 1..], ts))
  {
    assert clients[k..][0] == clients[k] && clients[k..][1..] == clients[k + 1..];
  }

  /** The reply to the import request: a status code, or no reply at all. */
  datatype PostReply = Status(code: int) | Unreachable

  /** What `push_metrics_for_date` did: the body it posted, if it got that far,
      and whether it returned or raised. */
  datatype PushReport = PushReport(body: Option<string>, outcome: Result<(), PyError>)

  /** `raise_for_status`: client and server errors raise. */
  predicate IsHttpError(code: int)
  {
    400 <= code < 600
  }

  /** `push_metrics_for_date`: a body is posted only when every client produced
      its lines and there is at least one; without a body the call raises, and
      with one it returns exactly when the server answered without an error
      status. */
  function PushForDate(date: Date, clients: seq<ClientReply>, post: PostReply): (r: PushReport)
    requires ValidDate(date)
    ensures var all := AllLines(clients, NoonTimestampMs(date));
      (r.body.Some? <==> all.Ok? && all.value != [])
      && (r.body.Some? ==> r.body.value == Payload(RenderAll(all.value)))
      && (r.body.None? ==> r.outcome.Err?)
      && (r.outcome.Ok? <==> r.body.Some? && post.Status? && !IsHttpError(post.code))
  {
    match AllLines(clients, NoonTimestampMs(date))
    case Err(e) => PushReport(None, Err(e))
    case Ok(ss) =>
      if ss == [] then PushReport(None, Err(NoMetrics))
      else
        var body := Payload(RenderAll(ss));
        match post
        case Unreachable => PushReport(Some(body), Err(ConnectionFailed))
        case Status(code) => PushReport(Some(body), if IsHttpError(code) then Err(HttpError(code)) else Ok(()))
  }

  /** Every subnet of the dict gets exactly two lines, in dict order: the raw
      `subnet_failure_rate` line and the canister-labelled one, with the same
      rate. */
  lemma {:induction false} SubnetsLinesShape(c: string, subnets: Dict<Value>, ts: int)
    requires SubnetsLines(c, subnets, ts).Ok?
    ensures var r := SubnetsLines(c, subnets, ts).value;
      |r| == 2 * |subnets| && Consistent(r, c, ts) && NamedIn(r, SubnetNames) && SubnetPairs(r, c, subnets, ts)
  {
    if |subnets| > 0 {
      var r := SubnetsLines(c, subnets, ts).value;
      var two := SubnetLines(c, subnets[0].0, subnets[0].1, ts).value;
      var rest := SubnetsLines(c, subnets[1..], ts).value;
      SubnetsLinesShape(c, subnets[1..], ts);
      assert r == two + rest;
      ConsistentAppend(two, rest, c, ts);
      NamedAppend(two, rest, SubnetNames, SubnetNames);
      assert SubnetNames + SubnetNames == SubnetNames;
      SubnetPairsCons(two, rest, c, subnets, ts);
    }
  }

  /** Lines `2i` and `2i + 1` are the two lines of subnet `i`. */
  predicate SubnetPairs(r: seq<Sample>, c: string, subnets: Dict<Value>, ts: int)
    requires |r| == 2 * |subnets|
  {
    forall i :: 0 <= i < |subnets| ==>
      Str(subnets[i].1).Ok?
      && r[2 * i] == Sample(Compact, "subnet_failure_rate", [("subnet_id", subnets[i].0)], Str(subnets[i].1).value, ts)
      && r[2 * i + 1] == Line(Labelled(c), "subnets_failure_rate", Str(subnets[i].1).value, ts, [("subnet_id", subnets[i].0)])
  }

  lemma SubnetPairsCons(two: seq<Sample>, rest: seq<Sample>, c: string, subnets: Dict<Value>, ts: int)
    requires |subnets| > 0 && SubnetLines(c, subnets[0].0, subnets[0].1, ts) == Ok(two)
    requires |rest| == 2 * (|subnets| - 1) && SubnetPairs(rest, c, subnets[1..], ts)
    ensures |two + rest| == 2 * |subnets| && SubnetPairs(two + rest, c, subnets, ts)
  {
    var r := two + rest;
    forall i | 1 <= i < |subnets|
      ensures r[2 * i] == rest[2 * (i - 1)] && r[2 * i + 1] == rest[2 * (i - 1) + 1]
      ensures subnets[i] == subnets[1..][i - 1]
    {
    }
  }

  /** A client's lines are all stamped and labelled with its canister. */
  lemma ClientLinesConsistent(cr: ClientReply, ts: int)
    requires ClientLines(cr, ts).Ok?
    ensures Consistent(ClientLines(cr, ts).value, cr.canisterId, ts)
  {
    var c := cr.canisterId;
    var f := RewardsDaily(cr.rewards).value;
    var ps := ProvidersLines(Labelled(c), f.providers, ts).value;
    var ss := SubnetsLines(c, f.subnets, ts).value;
    var gl := GovernanceLines(c, GovernanceTimestamp(cr.governance).value, ts);
    ProvidersLinesShape(Labelled(c), f.providers, ts);
    SubnetsLinesShape(c, f.subnets, ts);
    assert Consistent(ps, c, ts);
    ConsistentAppend(ps, ss, c, ts);
    ConsistentAppend(ps + ss, gl, c, ts);
    assert ClientLines(cr, ts).value == ps + ss + gl;
  }

  /** The pieces of a client's lines: providers, subnets, governance. */
  lemma ClientPieces(cr: ClientReply, ts: int) returns (ps: seq<Sample>, ss: seq<Sample>)
    requires ClientLines(cr, ts).Ok?
    ensures GovernanceTimestamp(cr.governance).Ok? && RewardsDaily(cr.rewards).Ok? && RewardsDaily(cr.rewards).value.Daily?
    ensures ProvidersLines(Labelled(cr.canisterId), RewardsDaily(cr.rewards).value.providers, ts) == Ok(ps)
    ensures SubnetsLines(cr.canisterId, RewardsDaily(cr.rewards).value.subnets, ts) == Ok(ss)
    ensures ClientLines(cr, ts).value == (ps + ss) + GovernanceLines(cr.canisterId, GovernanceTimestamp(cr.governance).value, ts)
    ensures NamedIn(ps + ss, ProviderNames + SubnetNames)
  {
    var f := RewardsDaily(cr.rewards).value;
    ps := ProvidersLines(Labelled(cr.canisterId), f.providers, ts).value;
    ss := SubnetsLines(cr.canisterId, f.subnets, ts).value;
    ProvidersLinesShape(Labelled(cr.canisterId), f.providers, ts);
    SubnetsLinesShape(cr.canisterId, f.subnets, ts);
    NamedAppend(ps, ss, ProviderNames, SubnetNames);
  }

  /** The governance line of a client is present exactly when the timestamp is,
      and then it is the last of its lines. */
  lemma ClientGovernance(cr: ClientReply, ts: int)
    requires ClientLines(cr, ts).Ok?
    ensures GovernanceTimestamp(cr.governance).Ok?
    ensures var r := ClientLines(cr, ts).value;
      (GovernanceTimestamp(cr.governance).value.Some? <==> |r| > 0 && r[|r| - 1].name == GovernanceName)
      && Count(r, GovernanceName, [("canister_id", cr.canisterId)])
         == if GovernanceTimestamp(cr.governance).value.Some? then 1 else 0
  {
    var ps, ss := ClientPieces(cr, ts);
    GovernanceLast(ps + ss, cr.canisterId, GovernanceTimestamp(cr.governance).value, ts);
  }

  lemma GovernanceLast(p: seq<Sample>, c: string, gov: Option<Number>, ts: int)
    requires NamedIn(p, ProviderNames + SubnetNames)
    ensures var r := p + GovernanceLines(c, gov, ts);
      (gov.Some? <==> |r| > 0 && r[|r| - 1].name == GovernanceName)
      && Count(r, GovernanceName, [("canister_id", c)]) == if gov.Some? then 1 else 0
  {
    var gl := GovernanceLines(c, gov, ts);
    CountAppend(p, gl, GovernanceName, [("canister_id", c)]);
    CountOtherNames(p, GovernanceName, [("canister_id", c)]);
    if gl == [] {
      assert p + gl == p;
      if |p| > 0 {
        assert p[|p| - 1].name in ProviderNames + SubnetNames;
      }
    }
  }

  /** An empty result from any canister makes the push raise before posting. */
  lemma NoDataRaises(date: Date, clients: seq<ClientReply>, post: PostReply, k: nat)
    requires ValidDate(date) && k < |clients|
    requires RewardsDaily(clients[k].rewards) == Ok(NoData)
    ensures PushForDate(date, clients, post).body.None?
    ensures PushForDate(date, clients, post).outcome.Err?
  {
  }

  /** The posted body reads back, line by line, as the samples in order, and
      every one of them carries noon of the date. */
  lemma PushedBodyCarriesLines(date: Date, clients: seq<ClientReply>, post: PostReply)
    requires ValidDate(date)
    requires PushForDate(date, clients, post).body.Some?
    requires AllReadable(AllLines(clients, NoonTimestampMs(date)).value)
    ensures var ss := AllLines(clients, NoonTimestampMs(date)).value;
      var lines := BodyLines(PushForDate(date, clients, post).body.value);
      |lines| == |ss|
      && forall i :: 0 <= i < |ss| ==>
        ParseLine(lines[i], ss[i].style) == Some(ss[i]) && ss[i].ts == NoonTimestampMs(date)
  {
    var ss := AllLines(clients, NoonTimestampMs(date)).value;
    BodyReadsBack(ss);
  }

  /** The subnet loop of `push_metrics_for_date`. */
  method EmitSubnets(c: string, subnets: Dict<Value>, ts: int) returns (r: Result<seq<string>, PyError>)
    ensures r == Rendered(SubnetsLines(c, subnets, ts))
  {
    var lines: seq<string> := [];
    ghost var ss: seq<Sample> := [];
    ThenNothing(SubnetsLines(c, subnets, ts));
    var i := 0;
    while i < |subnets|
      invariant 0 <= i <= |subnets|
      invariant lines == RenderAll(ss)
      invariant SubnetsLines(c, subnets, ts) == Then(ss, SubnetsLines(c, subnets[i..], ts))
    {
      SubnetsLinesAt(c, subnets, ts, i);
      var t := Str(subnets[i].1);
      if t.Err? {
        return Err(Malformed);
      }
      var sid := subnets[i].0;
      var raw := Sample(Compact, "subnet_failure_rate", [("subnet_id", sid)], t.value, ts);
      var made := Line(Labelled(c), "subnets_failure_rate", t.value, ts, [("subnet_id", sid)]);
      ghost var two := [raw, made];
      SubnetLinesOk(c, sid, subnets[i].1, ts);
      RenderAllTwo(raw, made);
      ThenStep(SubnetsLines(c, subnets, ts), ss, two, SubnetsLines(c, subnets[i + 1..], ts));
      lines := lines + [Render(raw), Render(made)];
      ss := ss + two;
      i := i + 1;
    }
    assert subnets[i..] == [];
    ThenDone(SubnetsLines(c, subnets, ts), ss, lines);
    return Ok(lines);
  }

  /** One iteration of the client loop: fetch, then providers, subnets and the
      governance line. */
  method EmitClient(cr: ClientReply, ts: int) returns (r: Result<seq<string>, PyError>)
    ensures r == Rendered(ClientLines(cr, ts))
  {
    var fetched := GetRewardsDaily(cr.rewards);
    if fetched.Err? {
      return Err(fetched.error);
    }
    if fetched.value.NoData? {
      return Err(NoDataAvailable);
    }
    var pl := EmitProviders(Labelled(cr.canisterId), fetched.value.providers, ts);
    if pl.Err? {
      return Err(Malformed);
    }
    var sl := EmitSubnets(cr.canisterId, fetched.value.subnets, ts);
    if sl.Err? {
      return Err(Malformed);
    }
    var gov := GovernanceTimestamp(cr.governance);
    if gov.Err? {
      return Err(Malformed);
    }
    ghost var ps := ProvidersLines(Labelled(cr.canisterId), fetched.value.providers, ts).value;
    ghost var subs := SubnetsLines(cr.canisterId, fetched.value.subnets, ts).value;
    var gl := GovernanceLines(cr.canisterId, gov.value, ts);
    RenderAllAppend(ps, subs);
    RenderAllAppend(ps + subs, gl);
    r := Ok(pl.value + sl.value + RenderAll(gl));
  }

  /** The client loop of `push_metrics_for_date`. */
  method CollectLines(clients: seq<ClientReply>, ts: int) returns (r: Result<seq<string>, PyError>)
    ensures r == Rendered(AllLines(clients, ts))
  {
    var lines: seq<string> := [];
    ghost var ss: seq<Sample> := [];
    ThenNothing(AllLines(clients, ts));
    var k := 0;
    while k < |clients|
      invariant 0 <= k <= |clients|
      invariant lines == RenderAll(ss)
      invariant AllLines(clients, ts) == Then(ss, AllLines(clients[k..], ts))
    {
      AllLinesAt(clients, ts, k);
      var cl := EmitClient(clients[k], ts);
      if cl.Err? {
        return Err(cl.error);
      }
      ghost var more := ClientLines(clients[k], ts).value;
      ThenStep(AllLines(clients, ts), ss, more, AllLines(clients[k + 1..], ts));
      lines := lines + cl.value;
      ss := ss + more;
      k := k + 1;
    }
    assert clients[k..] == [];
    ThenDone(AllLines(clients, ts), ss, lines);
    return Ok(lines);
  }

  /** `push_metrics_for_date`: the lines of every client at noon of the date,
      then the upload. */
  method PushMetricsForDate(date: Date, clients: seq<ClientReply>, post: PostReply) returns (report: PushReport)
    requires ValidDate(date)
    ensures report == PushForDate(date, clients, post)
  {
    var collected := CollectLines(clients, NoonTimestampMs(date));
    if collected.Err? {
      return PushReport(None, Err(collected.error));
    }
    var lines := collected.value;
    if lines == [] {
      return PushReport(None, Err(NoMetrics));
    }
    var body := Payload(lines);
    match post
    case Unreachable =>
      report := PushReport(Some(body), Err(ConnectionFailed));
    case Status(code) =>
      report := PushReport(Some(body), if IsHttpError(code) then Err(HttpError(code)) else Ok(()));
  }
}
