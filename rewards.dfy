/** What both ingesters do with a decoded canister reply before they write any
    line: reaching the reply value, turning the lists of `(principal, value)`
    pairs into dicts keyed by the principal's text, and reading the fields of a
    provider entry, of a node entry and of the governance reward list. */
module Rewards {
  import opened Base
  import opened Wire
  import opened PyDict

  /** The normalised daily results: `{}` when there is nothing, otherwise the
      provider dict and the subnet failure-rate dict. */
  datatype Fetched = NoData | Daily(providers: Dict<Value>, subnets: Dict<Value>)

  /** Every subnet failure rate can be written with `str()`. */
  predicate RatesWellFormed(subnets: Dict<Value>)
  {
    forall i :: 0 <= i < |subnets| ==> Str(subnets[i].1).Ok?
  }

  /** `response[0].get("value", {})` after the emptiness test: `None` when the
      response is empty. */
  function ReplyValue(response: Value): (r: Result<Option<Value>, PyError>)
    ensures r.Err? ==> r.error == Malformed
    ensures r.Ok? && r.value.None? <==> !Truthy(response)
    ensures r.Ok? && r.value.Some? ==>
      response.List? && |response.items| > 0
      && DictGet(response.items[0], "value", Record(map[])) == Ok(r.value.value)
    ensures Truthy(response) && response.List? && response.items[0].Record? ==>
      r == Ok(Some(GetOr(response.items[0], "value", Record(map[]))))
    ensures Truthy(response) && (!response.List? || !response.items[0].Record?) ==> r == Err(Malformed)
  {
    if !Truthy(response) then Ok(None)
    else match response
      case List(xs) => (var v :- DictGet(xs[0], "value", Record(map[])); Ok(Some(v)))
      case _ => Err(Malformed)
  }

  /** One element of a pair list, unpacked as `principal, value` with the
      principal turned into its text. */
  function Unpair(v: Value): (r: Result<(string, Value), PyError>)
    ensures r.Err? ==> r.error == Malformed
    ensures r.Ok? <==> v.List? && |v.items| == 2 && Str(v.items[0]).Ok?
    ensures r.Ok? ==> r.value == (Str(v.items[0]).value, v.items[1])
  {
    match v
    case List(xs) =>
      if |xs| == 2 then (var k :- Str(xs[0]); Ok((k, xs[1]))) else Err(Malformed)
    case _ => Err(Malformed)
  }

  /** The dict the pair loop builds: each pair in turn is stored under its
      principal's text. */
  function DictFromPairs(pairs: seq<Value>): (r: Result<Dict<Value>, PyError>)
    ensures r.Err? ==> r.error == Malformed
    ensures r.Ok? <==> forall i :: 0 <= i < |pairs| ==> Unpair(pairs[i]).Ok?
  {
    if |pairs| == 0 then Ok([])
    else
      var init := pairs[..|pairs| - 1];
      assert forall i :: 0 <= i < |init| ==> init[i] == pairs[i];
      var d :- DictFromPairs(init);
      var kv :- Unpair(pairs[|pairs| - 1]);
      Ok(Insert(d, kv.0, kv.1))
  }

  /** The loop of `get_rewards_daily` that fills a dict from a pair list. */
  method PairsToDict(pairs: seq<Value>) returns (r: Result<Dict<Value>, PyError>)
    ensures r == DictFromPairs(pairs)
  {
    var d: Dict<Value> := [];
    var i := 0;
    while i < |pairs|
      invariant 0 <= i <= |pairs|
      invariant DictFromPairs(pairs[..i]) == Ok(d)
    {
      var kv := Unpair(pairs[i]);
      if kv.Err? {
        return Err(Malformed);
      }
      assert pairs[..i + 1][..i] == pairs[..i];
      d := Insert(d, kv.value.0, kv.value.1);
      i := i + 1;
    }
    assert pairs[..i] == pairs;
    return Ok(d);
  }

  /** The value of the last pair whose principal reads `k`, found by searching
      from the end of the list. */
  function LastValue(pairs: seq<Value>, k: string): Option<Value>
  {
    if |pairs| == 0 then None
    else match Unpair(pairs[|pairs| - 1])
      case Ok(kv) => if kv.0 == k then Some(kv.1) else LastValue(pairs[..|pairs| - 1], k)
      case Err(_) => LastValue(pairs[..|pairs| - 1], k)
  }

  /** The dict has one entry per distinct principal, and the entry holds the
      value of the last pair for that principal: a later duplicate overwrites an
      earlier one. */
  lemma {:induction false} DictFromPairsLookup(pairs: seq<Value>, k: string)
    requires DictFromPairs(pairs).Ok?
    ensures UniqueKeys(DictFromPairs(pairs).value)
    ensures Get(DictFromPairs(pairs).value, k) == LastValue(pairs, k)
    ensures k in KeySet(DictFromPairs(pairs).value) <==> LastValue(pairs, k).Some?
  {
    if |pairs| > 0 {
      var init := pairs[..|pairs| - 1];
      DictFromPairsLookup(init, k);
      var d := DictFromPairs(init).value;
      var kv := Unpair(pairs[|pairs| - 1]).value;
      InsertGet(d, kv.0, kv.1, k);
      InsertUnique(d, kv.0, kv.1);
    }
  }

  /** `get_rewards_daily` on an `Ok` payload: the two pair lists as dicts. A
      missing list counts as empty. */
  function Normalise(daily: Value): (r: Result<Fetched, PyError>)
    ensures r.Err? ==> r.error == Malformed
    ensures r.Ok? ==> daily.Record? && r.value.Daily?
    ensures r.Ok? ==>
      (Elements(GetOr(daily, "provider_results", List([]))).Ok?
       && DictFromPairs(Elements(GetOr(daily, "provider_results", List([]))).value) == Ok(r.value.providers))
    ensures r.Ok? ==>
      (Elements(GetOr(daily, "subnets_failure_rate", List([]))).Ok?
       && DictFromPairs(Elements(GetOr(daily, "subnets_failure_rate", List([]))).value) == Ok(r.value.subnets))
  {
    if !daily.Record? then Err(Malformed)
    else
      var pairs :- Elements(GetOr(daily, "provider_results", List([])));
      var providers :- DictFromPairs(pairs);
      var spairs :- Elements(GetOr(daily, "subnets_failure_rate", List([])));
      var subnets :- DictFromPairs(spairs);
      Ok(Daily(providers, subnets))
  }

  /** Both dicts of an `Ok` payload are keyed by the principals of their pair
      lists, each holding the value of the last pair with that principal. */
  lemma NormaliseLookup(daily: Value, k: string)
    requires Normalise(daily).Ok?
    ensures var pairs := Elements(GetOr(daily, "provider_results", List([]))).value;
      var ps := Normalise(daily).value.providers;
      UniqueKeys(ps) && Get(ps, k) == LastValue(pairs, k) && (k in KeySet(ps) <==> LastValue(pairs, k).Some?)
    ensures var pairs := Elements(GetOr(daily, "subnets_failure_rate", List([]))).value;
      var ss := Normalise(daily).value.subnets;
      UniqueKeys(ss) && Get(ss, k) == LastValue(pairs, k) && (k in KeySet(ss) <==> LastValue(pairs, k).Some?)
  {
    DictFromPairsLookup(Elements(GetOr(daily, "provider_results", List([]))).value, k);
    DictFromPairsLookup(Elements(GetOr(daily, "subnets_failure_rate", List([]))).value, k);
  }

  /** The two dict-filling loops of `get_rewards_daily`. */
  method NormaliseDaily(daily: Value) returns (r: Result<Fetched, PyError>)
    ensures r == Normalise(daily)
  {
    if !daily.Record? {
      return Err(Malformed);
    }
    var pairs := Elements(GetOr(daily, "provider_results", List([])));
    if pairs.Err? {
      return Err(Malformed);
    }
    var providers := PairsToDict(pairs.value);
    if providers.Err? {
      return Err(Malformed);
    }
    var spairs := Elements(GetOr(daily, "subnets_failure_rate", List([])));
    if spairs.Err? {
      return Err(Malformed);
    }
    var subnets := PairsToDict(spairs.value);
    if subnets.Err? {
      return Err(Malformed);
    }
    return Ok(Daily(providers.value, subnets.value));
  }

  /** `d.get(key)` unwrapped, on a value known to be a dict. */
  function Field(d: Value, key: string): Value
    requires d.Record?
  {
    UnwrapOptional(GetOr(d, key, Null))
  }

  /** The fields of one provider entry the ingesters use: the node count, the
      unwrapped totals (`Null` when absent) and the node entries. */
  datatype ProviderFacts = ProviderFacts(nodesCount: nat, base: Value, adjusted: Value, nodes: seq<Value>)

  function ProviderOf(pr: Value): (r: Result<ProviderFacts, PyError>)
    ensures r.Err? ==> r.error == Malformed
    ensures r.Ok? ==> pr.Record?
    ensures r.Ok? ==> Elements(GetOr(pr, "daily_nodes_rewards", List([]))) == Ok(r.value.nodes)
    ensures r.Ok? ==> r.value.nodesCount == |r.value.nodes|
    ensures r.Ok? ==> r.value.base == Field(pr, "total_base_rewards_xdr_permyriad")
    ensures r.Ok? ==> r.value.adjusted == Field(pr, "total_adjusted_rewards_xdr_permyriad")
  {
    if !pr.Record? then Err(Malformed)
    else
      var dn := GetOr(pr, "daily_nodes_rewards", List([]));
      var count :- Len(dn);
      var nodes :- Elements(dn);
      Ok(ProviderFacts(count, Field(pr, "total_base_rewards_xdr_permyriad"),
        Field(pr, "total_adjusted_rewards_xdr_permyriad"), nodes))
  }

  /** The fields of one node entry behind its failure-rate lines: the node and
      subnet ids as rendered and the two unwrapped rates (`Null` when absent). */
  datatype NodeFacts = NodeFacts(nodeId: string, subnetId: string, original: Value, relative: Value)

  /** `str(x) if x else ""` for an unwrapped optional id. */
  function IdText(x: Value): (r: Result<string, PyError>)
    ensures r.Err? ==> r.error == Malformed
    ensures !Truthy(x) ==> r == Ok("")
    ensures x.Principal? ==> r == Ok(x.id)
  {
    if Truthy(x) then Str(x) else Ok("")
  }

  /** The failure-rate variant of a node when it is `SubnetMember`. */
  predicate IsSubnetMember(node: Value)
    requires node.Record?
  {
    var fr := Field(node, "daily_node_failure_rate");
    fr.Record? && "SubnetMember" in fr.fields
  }

  /** A node whose failure rate is the `SubnetMember` variant carrying truthy
      metrics: the only nodes that get failure-rate lines. */
  predicate ReportsMetrics(node: Value)
  {
    node.Record? && IsSubnetMember(node)
    && var m := Field(node, "daily_node_failure_rate").fields["SubnetMember"];
    m.Record? && Truthy(Field(m, "node_metrics"))
  }

  function NodeOf(node: Value): (r: Result<Option<NodeFacts>, PyError>)
    ensures r.Err? ==> r.error == Malformed
    ensures r.Ok? ==> node.Record? && (r.value.Some? <==> ReportsMetrics(node))
    ensures r.Ok? && r.value.Some? ==>
      var m := Field(Field(node, "daily_node_failure_rate").fields["SubnetMember"], "node_metrics");
      m.Record?
      && (!Truthy(Field(node, "node_id")) ==> r.value.value.nodeId == "")
      && (Field(node, "node_id").Principal? ==> r.value.value.nodeId == Field(node, "node_id").id)
      && (!Truthy(Field(m, "subnet_assigned")) ==> r.value.value.subnetId == "")
      && (Field(m, "subnet_assigned").Principal? ==> r.value.value.subnetId == Field(m, "subnet_assigned").id)
      && r.value.value.original == Field(m, "original_failure_rate")
      && r.value.value.relative == Field(m, "relative_failure_rate")
  {
    if !node.Record? then Err(Malformed)
    else
      var nodeId :- IdText(Field(node, "node_id"));
      if !IsSubnetMember(node) then Ok(None)
      else
        var member := Field(node, "daily_node_failure_rate").fields["SubnetMember"];
        if !member.Record? then Err(Malformed)
        else
          var m := Field(member, "node_metrics");
          if !Truthy(m) then Ok(None)
          else if !m.Record? then Err(Malformed)
          else
            var subnetId :- IdText(Field(m, "subnet_assigned"));
            Ok(Some(NodeFacts(nodeId, subnetId, Field(m, "original_failure_rate"), Field(m, "relative_failure_rate"))))
  }

  /** `get_latest_governance_reward_event`: the timestamp of the first entry of
      the reward list, when that list is non-empty and the timestamp is truthy.
      `float(timestamp)` keeps the decoded number. */
  function GovernanceTimestamp(response: Value): (r: Result<Option<Number>, PyError>)
    ensures r.Err? ==> r.error == Malformed
    ensures r.Ok? && r.value.Some? ==>
      !r.value.value.zero
      && ReplyValue(response).Ok? && ReplyValue(response).value.Some?
      && var v := ReplyValue(response).value.value;
      v.Record?
      && var rewards := GetOr(v, "rewards", List([]));
      rewards.List? && |rewards.items| > 0 && rewards.items[0].Record?
      && GetOr(rewards.items[0], "timestamp", Null) == Num(r.value.value)
    ensures ReplyValue(response) == Ok(None) ==> r == Ok(None)
    ensures ReplyValue(response).Ok? && ReplyValue(response).value.Some? ==>
      var v := ReplyValue(response).value.value;
      v.Record? ==>
        var rewards := GetOr(v, "rewards", List([]));
        (!Truthy(rewards) ==> r == Ok(None))
        && (rewards.List? && |rewards.items| > 0 && rewards.items[0].Record? ==>
              var ts := GetOr(rewards.items[0], "timestamp", Null);
              (!Truthy(ts) ==> r == Ok(None))
              && (ts.Num? && !ts.n.zero ==> r == Ok(Some(ts.n))))
  {
    var reply :- ReplyValue(response);
    if reply.None? then Ok(None)
    else if !reply.value.Record? then Err(Malformed)
    else
      var rewards := GetOr(reply.value, "rewards", List([]));
      if !Truthy(rewards) then Ok(None)
      else if !rewards.List? then Err(Malformed)
      else if !rewards.items[0].Record? then Err(Malformed)
      else
        var ts := GetOr(rewards.items[0], "timestamp", Null);
        if !Truthy(ts) then Ok(None)
        else if ts.Num? then Ok(Some(ts.n))
        else Err(Malformed)
  }

  /** Only the first entry of the list matters: the entries after it are never
      read. */
  lemma GovernanceFirstEntryOnly(first: Value, rest1: seq<Value>, rest2: seq<Value>)
    ensures var reply := (xs: seq<Value>) => List([Record(map["value" := Record(map["rewards" := List(xs)])])]);
      GovernanceTimestamp(reply([first] + rest1)) == GovernanceTimestamp(reply([first] + rest2))
  {
  }
}
