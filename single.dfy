/** The single-canister ingester (docker/tools/node-rewards-scheduler): one
    node-rewards canister, lines written inline without spaces and without a
    canister label, and a boolean outcome where the other ingester raises. The
    canister reply, the governance reply, the date and the HTTP status are
    inputs. */
module SingleIngester {
  import opened Base
  import opened Wire
  import opened PyDict
  import opened Calendar
  import opened Exposition
  import opened Rewards
  import opened Emit
  import Multi = MultiIngester

  /** `get_rewards_daily`: the normalised `Ok` payload, and `{}` for everything
      else: an empty response, an `Err` result, a result with neither tag, and
      every exception on the way. `Ok` is checked before `Err`. */
  function FetchDaily(response: Value): (r: Fetched)
    ensures !Truthy(response) ==> r == NoData
    ensures ReplyValue(response).Err? ==> r == NoData
    ensures ReplyValue(response).Ok? && ReplyValue(response).value.Some? ==>
      var v := ReplyValue(response).value.value;
      (v.Record? && "Ok" in v.fields ==>
         r == if Normalise(v.fields["Ok"]).Ok? then Normalise(v.fields["Ok"]).value else NoData)
      && (!(v.Record? && "Ok" in v.fields) ==> r == NoData)
  {
    match ReplyValue(response)
    case Err(_) => NoData
    case Ok(reply) =>
      if reply.None? || !reply.value.Record? || "Ok" !in reply.value.fields then NoData
      else match Normalise(reply.value.fields["Ok"])
        case Ok(f) => f
        case Err(_) => NoData
  }

  /** A reply dict that holds both an `Ok` and an `Err` entry: the only reply
      the two ingesters read differently when neither raises. */
  predicate BothTags(response: Value)
  {
    ReplyValue(response).Ok? && ReplyValue(response).value.Some?
    && var v := ReplyValue(response).value.value;
    v.Record? && "Ok" in v.fields && "Err" in v.fields
  }

  /** The two ingesters read a reply alike, except that this one turns every
      exception of the other into `{}`, and a reply holding both tags is read
      by its `Ok` entry here and as no data there. */
  lemma FetchAgreesWithMulti(response: Value)
    ensures Multi.RewardsDaily(response).Err? ==> FetchDaily(response) == NoData
    ensures Multi.RewardsDaily(response).Ok? && !BothTags(response) ==>
      FetchDaily(response) == Multi.RewardsDaily(response).value
    ensures BothTags(response) ==>
      Multi.RewardsDaily(response) == Ok(NoData)
      && var daily := ReplyValue(response).value.value.fields["Ok"];
      (Normalise(daily).Ok? ==> FetchDaily(response) == Normalise(daily).value)
  {
  }

  /** The fetch of `get_rewards_daily`, with its two dict-filling loops. */
  method GetRewardsDaily(response: Value) returns (r: Fetched)
    ensures r == FetchDaily(response)
  {
    var reply := ReplyValue(response);
    if reply.Err? || reply.value.None? {
      return NoData;
    }
    var result := reply.value.value;
    if !result.Record? || "Ok" !in result.fields {
      // an `Err` result, a result with neither tag, or an exception
      return NoData;
    }
    var daily := NormaliseDaily(result.fields["Ok"]);
    if daily.Err? {
      return NoData;
    }
    return daily.value;
  }

  /** `get_latest_governance_reward_event`: the timestamp of the first reward,
      or None, also for every exception. */
  function GovernanceEvent(response: Value): (r: Option<Number>)
    ensures GovernanceTimestamp(response).Ok? ==> r == GovernanceTimestamp(response).value
    ensures GovernanceTimestamp(response).Err? ==> r == None
    ensures r.Some? ==> !r.value.zero
  {
    match GovernanceTimestamp(response)
    case Ok(t) => t
    case Err(_) => None
  }

  const SubnetName: string := "subnet_failure_rate"
  const GovernanceName: string := "governance_latest_reward_event_timestamp_seconds"

  function SubnetLine(sid: string, rate: string, ts: int): Sample
  {
    Line(Inline, SubnetName, rate, ts, [("subnet_id", sid)])
  }

  /** The subnet loop: one line per entry of the subnet dict. */
  function SubnetsLines(subnets: Dict<Value>, ts: int): (r: Result<seq<Sample>, PyError>)
    ensures r.Err? ==> r.error == Malformed
    ensures r.Ok? <==> RatesWellFormed(subnets)
    decreases |subnets|
  {
    if |subnets| == 0 then Ok([])
    else
      assert forall i :: 1 <= i < |subnets| ==> subnets[1..][i - 1] == subnets[i];
      var t :- Str(subnets[0].1);
      Then([SubnetLine(subnets[0].0, t, ts)], SubnetsLines(subnets[1..], ts))
  }

  /** `SubnetsLines` from position `i` on: the subnet there, then the rest. */
  lemma SubnetsLinesAt(subnets: Dict<Value>, ts: int, i: nat)
    requires i < |subnets|
    ensures Str(subnets[i].1).Err? ==> SubnetsLines(subnets[i..], ts) == Err(Malformed)
    ensures Str(subnets[i].1).Ok? ==>
      SubnetsLines(subnets[i..], ts)
      == Then([SubnetLine(subnets[i].0, Str(subnets[i].1).value, ts)], SubnetsLines(subnets[i + 1..], ts))
  {
    assert subnets[i..][0] == subnets[i] && subnets[i..][1..] == subnets[i + 1..];
  }

  /** Exactly one line per subnet, in dict order, carrying the subnet id and
      its rate; the lines come out unless a rate cannot be written. */
  lemma {:induction false} SubnetsLinesShape(subnets: Dict<Value>, ts: int)
    ensures SubnetsLines(subnets, ts).Ok? <==> forall i :: 0 <= i < |subnets| ==> Str(subnets[i].1).Ok?
    ensures SubnetsLines(subnets, ts).Ok? ==>
      var r := SubnetsLines(subnets, ts).value;
      |r| == |subnets| && Shaped(r, Inline, ts)
      && forall i :: 0 <= i < |subnets| ==> r[i] == SubnetLine(subnets[i].0, Str(subnets[i].1).value, ts)
  {
    if |subnets| > 0 {
      SubnetsLinesShape(subnets[1..], ts);
      assert forall i :: 1 <= i < |subnets| ==> subnets[i] == subnets[1..][i - 1];
      if SubnetsLines(subnets, ts).Ok? {
        var r := SubnetsLines(subnets, ts).value;
        var rest := SubnetsLines(subnets[1..], ts).value;
        assert r == [SubnetLine(subnets[0].0, Str(subnets[0].1).value, ts)] + rest;
        forall i | 1 <= i < |subnets|
          ensures r[i] == rest[i - 1]
        {
        }
      }
    }
  }

  /** With distinct subnet ids, each id of the dict gets exactly one
      `subnet_failure_rate` line and no other id gets one. */
  lemma {:induction false} SubnetCount(subnets: Dict<Value>, ts: int, sid: string)
    requires UniqueKeys(subnets)
    requires SubnetsLines(subnets, ts).Ok?
    ensures Count(SubnetsLines(subnets, ts).value, SubnetName, [("subnet_id", sid)])
            == if sid in KeySet(subnets) then 1 else 0
  {
    if |subnets| > 0 {
      var first := [SubnetLine(subnets[0].0, Str(subnets[0].1).value, ts)];
      var rest := SubnetsLines(subnets[1..], ts).value;
      assert SubnetsLines(subnets, ts).value == first + rest;
      assert UniqueKeys(subnets[1..]);
      SubnetCount(subnets[1..], ts, sid);
      KeySetMember(subnets[1..], subnets[0].0);
      CountAppend(first, rest, SubnetName, [("subnet_id", sid)]);
      assert first[1..] == [];
      if sid != subnets[0].0 {
        assert [("subnet_id", sid)][0] != [("subnet_id", subnets[0].0)][0];
      }
    }
  }

  /** The governance line: a bare `name value ts` line, only for a timestamp. */
  function GovernanceLines(gov: Option<Number>, ts: int): (r: seq<Sample>)
    ensures Shaped(r, Inline, ts) && NamedIn(r, {GovernanceName})
    ensures |r| == if gov.Some? then 1 else 0
  {
    if gov.Some? then [Line(Inline, GovernanceName, gov.value.text, ts, [])] else []
  }

  /** Every provider entry and every failure rate of the day is well formed. */
  predicate WellFormedDay(providers: Dict<Value>, subnets: Dict<Value>, ts: int)
  {
    ProvidersWellFormed(Inline, providers, ts) && RatesWellFormed(subnets)
  }

  /** The lines of a date with data: the providers, the subnets, then the
      governance line. */
  function DayLines(providers: Dict<Value>, subnets: Dict<Value>, gov: Option<Number>, ts: int): (r: Result<seq<Sample>, PyError>)
    ensures r.Err? ==> r.error == Malformed
    ensures r.Ok? <==> WellFormedDay(providers, subnets, ts)
  {
    var ps :- ProvidersLines(Inline, providers, ts);
    var ss :- SubnetsLines(subnets, ts);
    Ok(ps + ss + GovernanceLines(gov, ts))
  }

  /** Which part of the lines a metric name belongs to: the providers and their
      nodes, the subnets, or the governance line. */
  function Section(name: string): nat
  {
    if name in ProviderNames then 0 else if name == SubnetName then 1 else 2
  }

  predicate InSection(ss: seq<Sample>, k: nat)
  {
    forall i :: 0 <= i < |ss| ==> Section(ss[i].name) == k
  }

  predicate InOrder(ss: seq<Sample>)
  {
    forall i, j :: 0 <= i < j < |ss| ==> Section(ss[i].name) <= Section(ss[j].name)
  }

  lemma SectionsInOrder(a: seq<Sample>, b: seq<Sample>, c: seq<Sample>)
    requires InSection(a, 0) && InSection(b, 1) && InSection(c, 2)
    ensures InOrder(a + b + c)
  {
    var s := a + b + c;
    forall i | 0 <= i < |s|
      ensures Section(s[i].name) == if i < |a| then 0 else if i < |a| + |b| then 1 else 2
    {
      if i < |a| {
        assert s[i] == a[i];
      } else if i < |a| + |b| {
        assert s[i] == b[i - |a|];
      } else {
        assert s[i] == c[i - |a| - |b|];
      }
    }
  }

  /** The pieces of the lines of a date: providers, subnets, governance. */
  lemma DayPieces(providers: Dict<Value>, subnets: Dict<Value>, gov: Option<Number>, ts: int)
      returns (ps: seq<Sample>, ss: seq<Sample>)
    requires DayLines(providers, subnets, gov, ts).Ok?
    ensures ProvidersLines(Inline, providers, ts) == Ok(ps)
    ensures SubnetsLines(subnets, ts) == Ok(ss)
    ensures DayLines(providers, subnets, gov, ts).value == ps + ss + GovernanceLines(gov, ts)
    ensures Shaped(ps, Inline, ts) && InSection(ps, 0)
    ensures Shaped(ss, Inline, ts) && InSection(ss, 1) && |ss| == |subnets|
  {
    ps := ProvidersLines(Inline, providers, ts).value;
    ss := SubnetsLines(subnets, ts).value;
    ProvidersLinesShape(Inline, providers, ts);
    ProviderSection(ps);
    SubnetsLinesShape(subnets, ts);
    SubnetSection(subnets, ss, ts);
  }

  lemma SectionNames()
    ensures Section(SubnetName) == 1 && Section(GovernanceName) == 2
  {
  }

  lemma ProviderSection(ps: seq<Sample>)
    requires NamedIn(ps, ProviderNames)
    ensures InSection(ps, 0)
  {
  }

  lemma SubnetSection(subnets: Dict<Value>, ss: seq<Sample>, ts: int)
    requires |ss| == |subnets|
    requires forall i :: 0 <= i < |subnets| ==> Str(subnets[i].1).Ok? && ss[i] == SubnetLine(subnets[i].0, Str(subnets[i].1).value, ts)
    ensures InSection(ss, 1)
  {
    SectionNames();
  }

  /** Three parts in section order, all inline at time `ts`, the last one the
      governance lines. */
  lemma ThreeParts(ps: seq<Sample>, ss: seq<Sample>, gov: Option<Number>, ts: int)
    requires Shaped(ps, Inline, ts) && InSection(ps, 0)
    requires Shaped(ss, Inline, ts) && InSection(ss, 1)
    ensures var r := ps + ss + GovernanceLines(gov, ts);
      Shaped(r, Inline, ts) && InOrder(r)
      && (gov.Some? <==> |r| > 0 && r[|r| - 1].name == GovernanceName)
  {
    var gl := GovernanceLines(gov, ts);
    ShapedAppend(ps, ss, Inline, ts);
    ShapedAppend(ps + ss, gl, Inline, ts);
    SectionNames();
    assert InSection(gl, 2);
    SectionsInOrder(ps, ss, gl);
    var r := ps + ss + gl;
    if gov.None? && |r| > 0 {
      assert r == ps + ss;
      assert Section(r[|r| - 1].name) < 2;
    }
  }

  /** The lines of a date are inline lines at time `ts` without a canister
      label, in three parts: every provider line (each provider's `nodes_count`,
      totals and node lines), then one line per subnet, then at most one
      governance line, which is there exactly when the timestamp is and is then
      last. */
  lemma DayLinesShape(providers: Dict<Value>, subnets: Dict<Value>, gov: Option<Number>, ts: int)
    requires DayLines(providers, subnets, gov, ts).Ok?
    ensures var r := DayLines(providers, subnets, gov, ts).value;
      Shaped(r, Inline, ts) && InOrder(r)
      && |r| == |ProvidersLines(Inline, providers, ts).value| + |subnets| + (if gov.Some? then 1 else 0)
      && (gov.Some? <==> |r| > 0 && r[|r| - 1].name == GovernanceName)
  {
    var ps, ss := DayPieces(providers, subnets, gov, ts);
    ThreeParts(ps, ss, gov, ts);
  }

  /** The samples `push_metrics_for_date` writes for a date: none when the
      fetch gave `{}` or writing a line raised. */
  function DateLines(date: Date, rewards: Value, governance: Value): (r: Option<seq<Sample>>)
    requires ValidDate(date)
    ensures FetchDaily(rewards) == NoData ==> r == None
    ensures r.Some? ==>
      var f := FetchDaily(rewards);
      f.Daily? && DayLines(f.providers, f.subnets, GovernanceEvent(governance), NoonTimestampMs(date)) == Ok(r.value)
  {
    match FetchDaily(rewards)
    case NoData => None
    case Daily(providers, subnets) =>
      match DayLines(providers, subnets, GovernanceEvent(governance), NoonTimestampMs(date))
      case Ok(ss) => Some(ss)
      case Err(_) => None
  }

  /** What `push_metrics_for_date` did: the body it posted, if it got that far,
      and the boolean it returned. */
  datatype Pushed = Pushed(body: Option<string>, success: bool)

  /** The statuses counted as a successful import. */
  predicate Accepted(code: int)
  {
    code == 200 || code == 204
  }

  /** The rendered lines of `DateLines`, as `push_metrics_for_date` holds
      them before posting. */
  function DateText(date: Date, rewards: Value, governance: Value): (r: Option<seq<string>>)
    requires ValidDate(date)
    ensures r.None? <==> DateLines(date, rewards, governance).None?
    ensures r.Some? ==> r.value == RenderAll(DateLines(date, rewards, governance).value)
  {
    match DateLines(date, rewards, governance)
    case None => None
    case Some(ss) => Some(RenderAll(ss))
  }

  /** The end of `push_metrics_for_date` once the lines are known: nothing is
      posted without lines; otherwise they are posted and the outcome is
      whether the status is 200 or 204. */
  function PostLines(lines: Option<seq<string>>, post: Multi.PostReply): (r: Pushed)
    ensures r.body.Some? <==> lines.Some? && lines.value != []
    ensures r.body.Some? ==> r.body.value == Payload(lines.value)
    ensures r.success <==> r.body.Some? && post.Status? && Accepted(post.code)
  {
    if lines.None? || lines.value == [] then Pushed(None, false)
    else
      var body := Payload(lines.value);
      match post
      case Unreachable => Pushed(Some(body), false)
      case Status(code) => Pushed(Some(body), Accepted(code))
  }

  /** `push_metrics_for_date`: `False` without a post when the fetch gave `{}`,
      when writing a line failed, or when there are no lines; otherwise the
      lines are posted and the outcome is whether the status is 200 or 204.
      Nothing raises. */
  function PushForDate(date: Date, rewards: Value, governance: Value, post: Multi.PostReply): (r: Pushed)
    requires ValidDate(date)
    ensures FetchDaily(rewards) == NoData ==> r == Pushed(None, false)
    ensures var all := DateLines(date, rewards, governance);
      (r.body.Some? <==> all.Some? && all.value != [])
      && (r.body.Some? ==> r.body.value == Payload(RenderAll(all.value)))
    ensures r.success <==> r.body.Some? && post.Status? && Accepted(post.code)
  {
    PostLines(DateText(date, rewards, governance), post)
  }

  /** The posted body reads back, line by line, as the samples of the date in
      order, every one of them an inline line stamped with noon of the date. */
  lemma PushedBodyCarriesLines(date: Date, rewards: Value, governance: Value, post: Multi.PostReply)
    requires ValidDate(date)
    requires PushForDate(date, rewards, governance, post).body.Some?
    requires AllReadable(DateLines(date, rewards, governance).value)
    ensures var ss := DateLines(date, rewards, governance).value;
      var lines := BodyLines(PushForDate(date, rewards, governance, post).body.value);
      |lines| == |ss|
      && forall i :: 0 <= i < |ss| ==>
        ParseLine(lines[i], Compact) == Some(ss[i]) && ss[i].ts == NoonTimestampMs(date)
        && NoCanisterLabel(ss[i].labels)
  {
    var f := FetchDaily(rewards);
    var ts := NoonTimestampMs(date);
    var gov := GovernanceEvent(governance);
    var ss := DateLines(date, rewards, governance).value;
    DayLinesShape(f.providers, f.subnets, gov, ts);
    BodyReadsBack(ss);
  }

  /** The subnet loop of `push_metrics_for_date`. */
  method EmitSubnets(subnets: Dict<Value>, ts: int) returns (r: Result<seq<string>, PyError>)
    ensures r == Rendered(SubnetsLines(subnets, ts))
  {
    var lines: seq<string> := [];
    ghost var ss: seq<Sample> := [];
    ThenNothing(SubnetsLines(subnets, ts));
    var i := 0;
    while i < |subnets|
      invariant 0 <= i <= |subnets|
      invariant lines == RenderAll(ss)
      invariant SubnetsLines(subnets, ts) == Then(ss, SubnetsLines(subnets[i..], ts))
    {
      SubnetsLinesAt(subnets, ts, i);
      var t := Str(subnets[i].1);
      if t.Err? {
        return Err(Malformed);
      }
      var line := SubnetLine(subnets[i].0, t.value, ts);
      ThenStep(SubnetsLines(subnets, ts), ss, [line], SubnetsLines(subnets[i + 1..], ts));
      lines := lines + [Render(line)];
      ss := ss + [line];
      i := i + 1;
    }
    assert subnets[i..] == [];
    ThenDone(SubnetsLines(subnets, ts), ss, lines);
    return Ok(lines);
  }

  /** The lines of `push_metrics_for_date` for a date with data: providers,
      subnets, then the governance line. */
  method CollectLines(providers: Dict<Value>, subnets: Dict<Value>, gov: Option<Number>, ts: int)
      returns (r: Result<seq<string>, PyError>)
    ensures r == Rendered(DayLines(providers, subnets, gov, ts))
  {
    var pl := EmitProviders(Inline, providers, ts);
    if pl.Err? {
      return Err(Malformed);
    }
    var sl := EmitSubnets(subnets, ts);
    if sl.Err? {
      return Err(Malformed);
    }
    ghost var ps := ProvidersLines(Inline, providers, ts).value;
    ghost var ss := SubnetsLines(subnets, ts).value;
    var gl := GovernanceLines(gov, ts);
    RenderAllAppend(ps, ss);
    RenderAllAppend(ps + ss, gl);
    r := Ok(pl.value + sl.value + RenderAll(gl));
  }

  /** Fetching and line building for one date: the rendered lines of
      `DateLines`, or nothing when there are no results or a line cannot be
      built. */
  method CollectDateLines(date: Date, rewards: Value, governance: Value) returns (lines: Option<seq<string>>)
    requires ValidDate(date)
    ensures lines == DateText(date, rewards, governance)
  {
    var daily := GetRewardsDaily(rewards);
    if daily.NoData? {
      return None;
    }
    var gov := GovernanceEvent(governance);
    var collected := CollectLines(daily.providers, daily.subnets, gov, NoonTimestampMs(date));
    ghost var day := DayLines(daily.providers, daily.subnets, gov, NoonTimestampMs(date));
    assert DateLines(date, rewards, governance) == if day.Ok? then Some(day.value) else None;
    if collected.Err? {
      return None;
    }
    return Some(collected.value);
  }

  /** `push_metrics_for_date`: fetch, write the lines at noon of the date,
      post them, and report the outcome as a boolean. */
  method PushMetricsForDate(date: Date, rewards: Value, governance: Value, post: Multi.PostReply)
      returns (pushed: Pushed)
    requires ValidDate(date)
    ensures pushed == PushForDate(date, rewards, governance, post)
  {
    var lines := CollectDateLines(date, rewards, governance);
    if lines.None? || lines.value == [] {
      return Pushed(None, false);
    }
    var body := Payload(lines.value);
    match post
    case Unreachable =>
      pushed := Pushed(Some(body), false);
    case Status(code) =>
      pushed := Pushed(Some(body), Accepted(code));
  }
}
