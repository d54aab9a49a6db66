/** src/client/MultiCall.cc: the greedy distribution of scenarios over clusters, and the
    distribution of their names over the successive calls. */
module MultiCall {

  const EST_USERDEFINED := 30

  /** The estimation vector of a cluster: tag EST_USERDEFINED + c holds its makespan for
      c + 1 scenarios. */
  type Estimation = map<int, real>

  /** Conversion from double to int. */
  function Truncate(r: real): int {
    if r >= 0.0 then r.Floor else -((-r).Floor)
  }

  /** What the cluster needs once it has one scenario more than `load`. */
  function Cost(cluster: Estimation, load: nat): int {
    var tag := EST_USERDEFINED + load;
    Truncate(if tag in cluster then cluster[tag] else 0.0)
  }

  function Sum(loads: seq<nat>): nat {
    if loads == [] then 0 else Sum(loads[..|loads| - 1]) + loads[|loads| - 1]
  }

  /** The largest cost of a cluster under the given loads; idle clusters cost nothing. */
  function Makespan(clusters: seq<Estimation>, loads: seq<nat>): (m: int)
    requires |loads| == |clusters|
    ensures m >= 0
  {
    if loads == [] then 0
    else
      var n := |loads| - 1;
      var before := Makespan(clusters[..n], loads[..n]);
      if loads[n] > 0 && Cost(clusters[n], loads[n] - 1) > before then Cost(clusters[n], loads[n] - 1) else before
  }

  /** Costs are not negative and do not drop as a cluster gets more scenarios. */
  ghost predicate Growing(clusters: seq<Estimation>, ns: int) {
    && (forall i, c: nat :: 0 <= i < |clusters| && c < ns ==> Cost(clusters[i], c) >= 0)
    && (forall i, c: nat, d: nat :: 0 <= i < |clusters| && c <= d < ns ==> Cost(clusters[i], c) <= Cost(clusters[i], d))
  }

  /** All NS scenarios are assigned and, when the costs grow with the load, in the best way. */
  ghost predicate Scheduled(clusters: seq<Estimation>, loads: seq<nat>)
    requires |loads| == |clusters| > 0
  {
    && Sum(loads) == (if |clusters[0]| == 0 then 0 else |clusters[0]| - 1)
    && (Growing(clusters, |clusters[0]| - 1) ==> Unbeaten(clusters, loads) && FirstCheapest(clusters, loads))
  }

  /** No scenario would end earlier elsewhere, nor as early on a cluster listed before. */
  ghost predicate FirstCheapest(clusters: seq<Estimation>, loads: seq<nat>)
    requires |loads| == |clusters|
  {
    forall i, j {:trigger loads[i], loads[j]} :: 0 <= i < |loads| && 0 <= j < |loads| && i != j && loads[j] > 0 ==>
      if i < j then Cost(clusters[j], loads[j] - 1) < Cost(clusters[i], loads[i])
      else Cost(clusters[j], loads[j] - 1) <= Cost(clusters[i], loads[i])
  }

  /** No distribution of as many scenarios ends earlier. */
  ghost predicate Unbeaten(clusters: seq<Estimation>, loads: seq<nat>)
    requires |loads| == |clusters|
  {
    forall other: seq<nat> :: |other| == |clusters| && Sum(other) == Sum(loads) ==>
      Makespan(clusters, loads) <= Makespan(clusters, other)
  }

  ghost predicate Within(loads: seq<nat>, n: nat, ns: int) {
    |loads| == n && forall i :: 0 <= i < n ==> loads[i] <= ns
  }

  lemma {:induction false} MakespanBounds(clusters: seq<Estimation>, loads: seq<nat>, i: nat)
    requires |loads| == |clusters| && i < |loads| && loads[i] > 0
    ensures Cost(clusters[i], loads[i] - 1) <= Makespan(clusters, loads)
  {
    var n := |loads| - 1;
    if i < n {
      MakespanBounds(clusters[..n], loads[..n], i);
    }
  }

  lemma MakespanAfterStep(clusters: seq<Estimation>, loads: seq<nat>, i: nat, bound: int)
    requires |loads| == |clusters| && i < |loads|
    requires Makespan(clusters, loads) <= bound && Cost(clusters[i], loads[i]) <= bound
    ensures Makespan(clusters, loads[i := loads[i] + 1]) <= bound
  {
    var n, more := |loads| - 1, loads[i := loads[i] + 1];
    if i < n {
      assert more[..n] == loads[..n][i := loads[i] + 1];
      MakespanAfterStep(clusters[..n], loads[..n], i, bound);
    } else {
      assert more[..n] == loads[..n];
    }
  }

  lemma SumAfterStep(loads: seq<nat>, i: nat)
    requires i < |loads|
    ensures Sum(loads[i := loads[i] + 1]) == Sum(loads) + 1
  {
    var n, more := |loads| - 1, loads[i := loads[i] + 1];
    if i < n {
      assert more[..n] == loads[..n][i := loads[i] + 1];
      SumAfterStep(loads[..n], i);
    } else {
      assert more[..n] == loads[..n];
    }
  }

  /** Pigeonhole: a larger total puts more on some cluster. */
  lemma SomeClusterHasMore(loads: seq<nat>, other: seq<nat>) returns (i: nat)
    requires |loads| == |other| && Sum(other) > Sum(loads)
    ensures i < |loads| && other[i] > loads[i]
  {
    var n := |loads| - 1;
    if other[n] > loads[n] {
      i := n;
    } else {
      i := SomeClusterHasMore(loads[..n], other[..n]);
    }
  }

  lemma SumOfZeros(n: nat)
    ensures Sum(seq(n, k => 0)) == 0
  {
    if n > 0 {
      SumOfZeros(n - 1);
      assert seq(n, k => 0)[..n - 1] == seq(n - 1, k => 0);
    }
  }

  lemma {:induction false} MakespanOfZeros(clusters: seq<Estimation>, loads: seq<nat>)
    requires |loads| == |clusters| && forall k :: 0 <= k < |loads| ==> loads[k] == 0
    ensures Makespan(clusters, loads) == 0
  {
    if loads != [] { MakespanOfZeros(clusters[..|loads| - 1], loads[..|loads| - 1]); }
  }

  /** No distribution of at least as many scenarios does better. */
  ghost predicate Optimal(clusters: seq<Estimation>, loads: seq<nat>, ns: int)
    requires |loads| == |clusters|
  {
    forall other: seq<nat> :: Within(other, |clusters|, ns) && Sum(other) >= Sum(loads) ==>
      Makespan(clusters, loads) <= Makespan(clusters, other)
  }

  /** Giving the next scenario to the cheapest cluster keeps the distribution optimal. */
  lemma GreedyStep(clusters: seq<Estimation>, loads: seq<nat>, i: nat, ns: int)
    requires |loads| == |clusters| && i < |clusters| && Growing(clusters, ns) && Sum(loads) < ns
    requires Optimal(clusters, loads, ns)
    requires forall j :: 0 <= j < |clusters| ==> Cost(clusters[i], loads[i]) <= Cost(clusters[j], loads[j])
    ensures Optimal(clusters, loads[i := loads[i] + 1], ns)
  {
    var more := loads[i := loads[i] + 1];
    SumAfterStep(loads, i);
    forall other: seq<nat> | Within(other, |clusters|, ns) && Sum(other) >= Sum(more)
      ensures Makespan(clusters, more) <= Makespan(clusters, other)
    {
      var j := SomeClusterHasMore(loads, other);
      MakespanBounds(clusters, other, j);
      assert Cost(clusters[j], loads[j]) <= Cost(clusters[j], other[j] - 1);
      MakespanAfterStep(clusters, loads, i, Makespan(clusters, other));
    }
  }

  lemma {:induction false} LoadBelowSum(loads: seq<nat>, i: nat)
    requires i < |loads|
    ensures loads[i] <= Sum(loads)
  {
    if i < |loads| - 1 { LoadBelowSum(loads[..|loads| - 1], i); }
  }

  ghost predicate NonNegative(clusters: seq<Estimation>, loads: seq<nat>)
    requires |loads| == |clusters|
  {
    forall j :: 0 <= j < |clusters| ==> Cost(clusters[j], loads[j]) >= 0
  }

  /** The cheapest cluster for the next scenario; -1 marks "none seen yet". */
  method CheapestCluster(clusters: seq<Estimation>, nbDags: seq<nat>) returns (clusterMin: nat)
    requires |nbDags| == |clusters| > 0
    ensures clusterMin < |clusters|
    ensures NonNegative(clusters, nbDags) ==>
      forall j :: 0 <= j < |clusters| ==> Cost(clusters[clusterMin], nbDags[clusterMin]) <= Cost(clusters[j], nbDags[j])
    ensures NonNegative(clusters, nbDags) ==>
      forall j :: 0 <= j < clusterMin ==> Cost(clusters[clusterMin], nbDags[clusterMin]) < Cost(clusters[j], nbDags[j])
  {
    var msMin := -1;
    clusterMin := 0;
    for i := 0 to |clusters|
      invariant clusterMin < |clusters| && (i > 0 ==> clusterMin < i)
      invariant i == 0 ==> msMin == -1
      invariant NonNegative(clusters, nbDags) ==> (i > 0 ==> msMin == Cost(clusters[clusterMin], nbDags[clusterMin]))
      invariant NonNegative(clusters, nbDags) ==> forall j :: 0 <= j < i ==> msMin <= Cost(clusters[j], nbDags[j])
      invariant NonNegative(clusters, nbDags) ==>
        forall j :: 0 <= j < clusterMin ==> msMin < Cost(clusters[j], nbDags[j])
    {
      var temp := Cost(clusters[i], nbDags[i]);
      if msMin == -1 || temp < msMin {
        msMin := temp;
        clusterMin := i;
      }
    }
  }

  lemma StillFirstCheapest(clusters: seq<Estimation>, loads: seq<nat>, m: nat, ns: int)
    requires |loads| == |clusters| && m < |clusters| && Growing(clusters, ns) && Sum(loads) < ns
    requires FirstCheapest(clusters, loads)
    requires forall j :: 0 <= j < |clusters| ==> Cost(clusters[m], loads[m]) <= Cost(clusters[j], loads[j])
    requires forall j :: 0 <= j < m ==> Cost(clusters[m], loads[m]) < Cost(clusters[j], loads[j])
    ensures FirstCheapest(clusters, loads[m := loads[m] + 1])
  {
    var more := loads[m := loads[m] + 1];
    forall i, j | 0 <= i < |more| && 0 <= j < |more| && i != j && more[j] > 0
      ensures if i < j then Cost(clusters[j], more[j] - 1) < Cost(clusters[i], more[i])
        else Cost(clusters[j], more[j] - 1) <= Cost(clusters[i], more[i])
    {
      if i == m {
        TwoBelowSum(loads, i, j);
        assert Cost(clusters[i], loads[i]) <= Cost(clusters[i], more[i]);
      }
    }
  }

  lemma {:induction false} TwoBelowSum(loads: seq<nat>, i: nat, j: nat)
    requires i < |loads| && j < |loads| && i != j
    ensures loads[i] + loads[j] <= Sum(loads)
  {
    var n := |loads| - 1;
    if i == n { LoadBelowSum(loads[..n], j); }
    else if j == n { LoadBelowSum(loads[..n], i); }
    else { TwoBelowSum(loads[..n], i, j); }
  }

  /** `cerfacsSchedule`: exactly NS scenarios, and no distribution of NS scenarios has a
      smaller makespan when the costs grow with the load. */
  method CerfacsSchedule(clusters: seq<Estimation>) returns (nbDags: seq<nat>)
    requires clusters != []
    ensures |nbDags| == |clusters| && Scheduled(clusters, nbDags)
  {
    var ns := |clusters[0]| - 1;
    nbDags := seq(|clusters|, k => 0);
    SumOfZeros(|clusters|);
    MakespanOfZeros(clusters, nbDags);
    var dag := 0;
    while dag < ns
      invariant |nbDags| == |clusters| && Sum(nbDags) == dag && (dag <= ns || dag == 0)
      invariant Growing(clusters, ns) ==> Optimal(clusters, nbDags, ns) && FirstCheapest(clusters, nbDags)
    {
      var clusterMin := CheapestCluster(clusters, nbDags);
      SumAfterStep(nbDags, clusterMin);
      if Growing(clusters, ns) {
        forall j | 0 <= j < |clusters| ensures Cost(clusters[j], nbDags[j]) >= 0 {
          LoadBelowSum(nbDags, j);
        }
        GreedyStep(clusters, nbDags, clusterMin, ns);
        StillFirstCheapest(clusters, nbDags, clusterMin, ns);
      }
      nbDags := nbDags[clusterMin := nbDags[clusterMin] + 1];
      dag := dag + 1;
    }
    forall other: seq<nat> | Growing(clusters, ns) && |other| == |clusters| && Sum(other) == Sum(nbDags)
      ensures Makespan(clusters, nbDags) <= Makespan(clusters, other)
    {
      forall i | 0 <= i < |other| ensures other[i] <= Sum(other) { LoadBelowSum(other, i); }
      if ns < 0 {
        MakespanOfZeros(clusters, other);
        ZeroSum(nbDags);
        MakespanOfZeros(clusters, nbDags);
      } else {
        assert Within(other, |clusters|, ns);
      }
    }
  }

  // ---------------------------------------------------------------- the schedule in the estimates

  predicate HasEstimate(cluster: Estimation, n: nat) {
    30 + n in cluster && cluster[30 + n] >= 0.0
  }

  predicate NotLess(cluster: Estimation, m: nat, n: nat) {
    30 + m in cluster && 30 + n in cluster && cluster[30 + m] <= cluster[30 + n]
  }

  /** The estimates 30, 31, ... of all clusters are there, and they do not decrease. */
  ghost predicate Estimated(clusters: seq<Estimation>, ns: int) {
    && (forall i, n: nat {:trigger HasEstimate(clusters[i], n)} ::
          0 <= i < |clusters| && n < ns ==> HasEstimate(clusters[i], n))
    && (forall i, m: nat, n: nat {:trigger NotLess(clusters[i], m, n)} ::
          0 <= i < |clusters| && m <= n < ns ==> NotLess(clusters[i], m, n))
  }

  /** When a cluster ends that has n scenarios, in whole seconds: estimate 30 is for one. */
  function End(cluster: Estimation, n: nat): int
    requires n > 0 && 29 + n in cluster
  {
    cluster[29 + n].Floor
  }

  /** An estimate that is missing counts as 0, another one loses its fraction. */
  lemma CostRounds(cluster: Estimation, load: nat)
    ensures 30 + load !in cluster ==> Cost(cluster, load) == 0
    ensures 30 + load in cluster && cluster[30 + load] >= 0.0 ==>
      Cost(cluster, load) as real <= cluster[30 + load] < Cost(cluster, load) as real + 1.0
    ensures 30 + load in cluster && cluster[30 + load] < 0.0 ==>
      Cost(cluster, load) as real - 1.0 < cluster[30 + load] <= Cost(cluster, load) as real <= 0.0
  {
  }

  lemma CostIsEstimate(clusters: seq<Estimation>, ns: nat, i: nat, n: nat)
    requires Estimated(clusters, ns) && i < |clusters| && n < ns
    ensures 30 + n in clusters[i] && 0 <= Cost(clusters[i], n) == End(clusters[i], n + 1)
  {
    assert HasEstimate(clusters[i], n);
  }

  lemma EstimatedGrows(clusters: seq<Estimation>, ns: nat)
    requires Estimated(clusters, ns)
    ensures Growing(clusters, ns)
  {
    forall i, c: nat | 0 <= i < |clusters| && c < ns ensures Cost(clusters[i], c) >= 0 {
      CostIsEstimate(clusters, ns, i, c);
    }
    forall i, c: nat, d: nat | 0 <= i < |clusters| && c <= d < ns ensures Cost(clusters[i], c) <= Cost(clusters[i], d) {
      CostIsEstimate(clusters, ns, i, c);
      CostIsEstimate(clusters, ns, i, d);
      assert NotLess(clusters[i], c, d);
    }
  }

  /** Some busy cluster ends last. */
  lemma LastToEnd(clusters: seq<Estimation>, loads: seq<nat>) returns (j: nat)
    requires |loads| == |clusters| && Sum(loads) > 0
    requires forall k :: 0 <= k < |loads| && loads[k] > 0 ==> Cost(clusters[k], loads[k] - 1) >= 0
    ensures j < |loads| && loads[j] > 0 && Makespan(clusters, loads) == Cost(clusters[j], loads[j] - 1)
  {
    var n := |loads| - 1;
    if loads[n] > 0 && Cost(clusters[n], loads[n] - 1) >= Makespan(clusters[..n], loads[..n]) {
      j := n;
    } else {
      if Sum(loads[..n]) == 0 { IdleEndsAtOnce(clusters[..n], loads[..n]); }
      j := LastToEnd(clusters[..n], loads[..n]);
    }
  }

  lemma IdleEndsAtOnce(clusters: seq<Estimation>, loads: seq<nat>)
    requires |loads| == |clusters| && Sum(loads) == 0
    ensures Makespan(clusters, loads) == 0
  {
    ZeroSum(loads);
    MakespanOfZeros(clusters, loads);
  }

  /** A busy cluster that ends at t or later. */
  ghost predicate EndsAfter(clusters: seq<Estimation>, loads: seq<nat>, j: nat, t: int)
    requires |loads| == |clusters| && j < |loads|
  {
    loads[j] > 0 && 29 + loads[j] in clusters[j] && t <= End(clusters[j], loads[j])
  }

  lemma BusyCluster(clusters: seq<Estimation>, loads: seq<nat>, ns: nat, i: nat)
    requires |loads| == |clusters| && Estimated(clusters, ns) && Sum(loads) == ns && i < |loads| && loads[i] > 0
    ensures 29 + loads[i] in clusters[i] && 0 <= Cost(clusters[i], loads[i] - 1) == End(clusters[i], loads[i])
  {
    LoadBelowSum(loads, i);
    CostIsEstimate(clusters, ns, i, loads[i] - 1);
  }

  /** Under any other distribution of as many scenarios some cluster ends as late as any
      cluster does under the schedule. */
  lemma NobodyEndsEarlier(clusters: seq<Estimation>, loads: seq<nat>, ns: nat, other: seq<nat>, i: nat)
    returns (j: nat)
    requires |loads| == |clusters| > 0 && |clusters[0]| == ns + 1
    requires Estimated(clusters, ns) && Scheduled(clusters, loads)
    requires |other| == |clusters| && Sum(other) == ns && i < |loads| && loads[i] > 0
    ensures 29 + loads[i] in clusters[i]
    ensures j < |other| && EndsAfter(clusters, other, j, End(clusters[i], loads[i]))
  {
    EstimatedGrows(clusters, ns);
    BusyCluster(clusters, loads, ns, i);
    MakespanBounds(clusters, loads, i);
    LoadBelowSum(loads, i);
    forall k | 0 <= k < |other| && other[k] > 0 ensures Cost(clusters[k], other[k] - 1) >= 0 {
      BusyCluster(clusters, other, ns, k);
    }
    j := LastToEnd(clusters, other);
    BusyCluster(clusters, other, ns, j);
  }

  /** The last scenario of a cluster ends no later than as the next one anywhere else, and
      earlier than on a cluster listed before. */
  lemma NowhereSooner(clusters: seq<Estimation>, loads: seq<nat>, ns: nat, i: nat, j: nat)
    requires |loads| == |clusters| > 0 && |clusters[0]| == ns + 1
    requires Estimated(clusters, ns) && Scheduled(clusters, loads)
    requires i < |loads| && j < |loads| && i != j && loads[j] > 0
    ensures 29 + loads[j] in clusters[j] && 30 + loads[i] in clusters[i]
    ensures End(clusters[j], loads[j]) <= End(clusters[i], loads[i] + 1)
    ensures i < j ==> End(clusters[j], loads[j]) < End(clusters[i], loads[i] + 1)
  {
    EstimatedGrows(clusters, ns);
    BusyCluster(clusters, loads, ns, j);
    TwoBelowSum(loads, i, j);
    CostIsEstimate(clusters, ns, i, loads[i]);
    assert loads[i] >= 0 && FirstCheapest(clusters, loads);
  }

  /** One scenario: it goes to the cluster that does one scenario sooner. */
  method OneScenarioInstance() returns (nbDags: seq<nat>)
    ensures nbDags == [1, 0]
  {
    var clusters := [map[30 := 10.0, 31 := 100.0], map[30 := 20.0, 31 := 20.0]];
    TwoEstimates(clusters[0]);
    EstimatedForOne(clusters);
    nbDags := CerfacsSchedule(clusters);
    TwoLoads(nbDags);
    OneGoesFirst(clusters, nbDags);
  }

  lemma TwoEstimates(cluster: Estimation)
    requires cluster.Keys == {30, 31}
    ensures |cluster| == 2
  {
    assert |cluster| == |cluster.Keys|;
  }

  lemma TwoLoads(loads: seq<nat>)
    requires |loads| == 2
    ensures Sum(loads) == loads[0] + loads[1]
  {
    assert loads[..1][..0] == [] && loads[..1][0] == loads[0];
    assert Sum(loads[..1]) == loads[0];
  }

  lemma OneGoesFirst(clusters: seq<Estimation>, loads: seq<nat>)
    requires |clusters| == |loads| == 2 && |clusters[0]| == 2 && loads[0] + loads[1] == 1
    requires Estimated(clusters, 1) && Scheduled(clusters, loads)
    requires HasEstimate(clusters[0], 0) && HasEstimate(clusters[1], 0) && clusters[0][30].Floor < clusters[1][30].Floor
    ensures loads == [1, 0]
  {
    if loads[1] == 1 { NowhereSooner(clusters, loads, 1, 0, 1); }
  }

  lemma EstimatedForOne(clusters: seq<Estimation>)
    requires forall i :: 0 <= i < |clusters| ==> HasEstimate(clusters[i], 0)
    ensures Estimated(clusters, 1)
  {
  }

  lemma {:induction false} ZeroSum(loads: seq<nat>)
    requires Sum(loads) == 0
    ensures forall k :: 0 <= k < |loads| ==> loads[k] == 0
  {
    forall k | 0 <= k < |loads| ensures loads[k] == 0 { LoadBelowSum(loads, k); }
  }

  // ---------------------------------------------------------------- names of the scenarios

  const SEPARATOR := '#'

  /** strtok over the separator: empty tokens are skipped. `cur` is the token being read. */
  function TokensFrom(s: string, cur: string): seq<string> {
    if s == [] then if cur == [] then [] else [cur]
    else if s[0] == SEPARATOR then (if cur == [] then [] else [cur]) + TokensFrom(s[1..], [])
    else TokensFrom(s[1..], cur + [s[0]])
  }

  function Tokens(s: string): seq<string> {
    TokensFrom(s, [])
  }

  ghost predicate Token(t: string) {
    t != [] && forall k :: 0 <= k < |t| ==> t[k] != SEPARATOR
  }

  ghost predicate AllTokens(ts: seq<string>) {
    forall k :: 0 <= k < |ts| ==> Token(ts[k])
  }

  function Join(ts: seq<string>): string {
    if ts == [] then [] else if |ts| == 1 then ts[0]
    else Join(ts[..|ts| - 1]) + ([SEPARATOR] + ts[|ts| - 1])
  }

  lemma {:induction false} TokensFromClean(s: string, cur: string)
    requires cur == [] || Token(cur)
    ensures AllTokens(TokensFrom(s, cur))
    decreases |s|
  {
    if s != [] {
      if s[0] == SEPARATOR { TokensFromClean(s[1..], []); } else { TokensFromClean(s[1..], cur + [s[0]]); }
    }
  }

  /** Reading on after a token: it is either closed by a separator or the end. */
  lemma {:induction false} ReadToken(t: string, rest: string, cur: string)
    requires forall k :: 0 <= k < |t| ==> t[k] != SEPARATOR
    ensures TokensFrom(t + rest, cur) == TokensFrom(rest, cur + t)
    decreases |t|
  {
    if t == [] {
      assert t + rest == rest && cur + t == cur;
    } else {
      assert (t + rest)[1..] == t[1..] + rest;
      ReadToken(t[1..], rest, cur + [t[0]]);
      assert cur + [t[0]] + t[1..] == cur + t;
    }
  }

  /** Two names with the separator between them are two tokens. */
  lemma TwoNames(a: string, b: string)
    requires a != "" && b != ""
    requires (forall k :: 0 <= k < |a| ==> a[k] != '#') && forall k :: 0 <= k < |b| ==> b[k] != '#'
    ensures Tokens(a + ("#" + b)) == [a, b]
  {
    assert ("#" + b)[1..] == b == b + [];
    ReadLast(b, [], []);
    ReadLast(a, "#" + b, [b]);
  }

  lemma {:induction false} ReadLast(t: string, rest: string, more: seq<string>)
    requires Token(t)
    requires (rest == [] && more == []) || (rest != [] && rest[0] == SEPARATOR && more == TokensFrom(rest[1..], []))
    ensures TokensFrom(t + rest, []) == [t] + more
  {
    ReadToken(t, rest, []);
    assert [] + t == t;
  }

  lemma {:induction false} TokensOfJoin(ts: seq<string>, rest: string, more: seq<string>)
    requires AllTokens(ts) && ts != []
    requires (rest == [] && more == []) || (rest != [] && rest[0] == SEPARATOR && more == TokensFrom(rest[1..], []))
    ensures TokensFrom(Join(ts) + rest, []) == ts + more
    decreases |ts|
  {
    var n := |ts| - 1;
    var t := ts[n];
    ReadLast(t, rest, more);
    if n == 0 {
      assert ts + more == [t] + more;
    } else {
      var tail := [SEPARATOR] + t + rest;
      AfterSeparator(t, rest);
      TokensOfJoin(ts[..n], tail, [t] + more);
      LastToken(Join(ts[..n]), t, rest, tail);
      SplitLast(ts, t, more);
    }
  }

  lemma AfterSeparator(t: string, rest: string)
    ensures ([SEPARATOR] + t + rest)[1..] == t + rest
  {
  }

  lemma SplitLast(ts: seq<string>, t: string, more: seq<string>)
    requires ts != [] && t == ts[|ts| - 1]
    ensures ts[..|ts| - 1] + ([t] + more) == ts + more
  {
  }

  lemma LastToken(front: string, t: string, rest: string, tail: string)
    requires tail == [SEPARATOR] + t + rest
    ensures front + ([SEPARATOR] + t) + rest == front + tail
  {
  }

  lemma {:induction false} TokensJoin(ts: seq<string>)
    requires AllTokens(ts)
    ensures Tokens(Join(ts)) == ts
  {
    if ts != [] {
      TokensOfJoin(ts, [], []);
      assert Join(ts) + [] == Join(ts) && ts + [] == ts;
    }
  }

  lemma JoinNext(tokens: seq<string>, n: nat, i: nat)
    requires n <= i < |tokens|
    ensures Join(tokens[n..i + 1]) == (if i > n then Join(tokens[n..i]) + [SEPARATOR] else []) + tokens[i]
    ensures i == n ==> Join(tokens[n..i]) == []
  {
    var longer := tokens[n..i + 1];
    assert longer[..|longer| - 1] == tokens[n..i] && longer[|longer| - 1] == tokens[i];
    BeforeToken(Join(tokens[n..i]), tokens[i]);
  }

  lemma BeforeToken(front: string, t: string)
    ensures front + ([SEPARATOR] + t) == front + [SEPARATOR] + t
  {
  }

  /** The strtok loops: the first n names, and the end of the string rebuilt. */
  method TakeNames(save: string, n: nat) returns (stemp: string, s: string)
    requires n <= |Tokens(save)|
    ensures stemp == Join(Tokens(save)[..n]) && s == Join(Tokens(save)[n..])
  {
    var tokens := Tokens(save);
    stemp, s := [], [];
    for counter2 := 0 to n
      invariant stemp == Join(tokens[0..counter2])
    {
      JoinNext(tokens, 0, counter2);
      if counter2 != 0 {
        stemp := stemp + [SEPARATOR];
      }
      stemp := stemp + tokens[counter2];
    }
    for counter2 := n to |tokens|
      invariant s == Join(tokens[n..counter2])
    {
      JoinNext(tokens, n, counter2);
      if counter2 > n {
        s := s + [SEPARATOR];
      }
      s := s + tokens[counter2];
    }
    assert tokens[n..|tokens|] == tokens[n..] && tokens[0..n] == tokens[..n];
  }

  /** The names each cluster gets when the calls follow each other. */
  ghost function Chunks(names: seq<string>, loads: seq<nat>): seq<seq<string>>
    requires Sum(loads) <= |names|
  {
    if loads == [] then []
    else
      var n := |loads| - 1;
      Chunks(names, loads[..n]) + [names[Sum(loads[..n])..Sum(loads)]]
  }

  ghost function Flatten(chunks: seq<seq<string>>): seq<string> {
    if chunks == [] then [] else Flatten(chunks[..|chunks| - 1]) + chunks[|chunks| - 1]
  }

  /** No name is lost, repeated or reordered: the chunks follow each other in the input. */
  lemma {:induction false} ChunksCover(names: seq<string>, loads: seq<nat>)
    requires Sum(loads) <= |names|
    ensures Flatten(Chunks(names, loads)) == names[..Sum(loads)]
    ensures |Chunks(names, loads)| == |loads|
    ensures forall i :: 0 <= i < |loads| ==> |Chunks(names, loads)[i]| == loads[i]
  {
    if loads != [] {
      var n := |loads| - 1;
      ChunksCover(names, loads[..n]);
      var c := Chunks(names, loads);
      assert c[..|c| - 1] == Chunks(names, loads[..n]);
      assert names[..Sum(loads)] == names[..Sum(loads[..n])] + names[Sum(loads[..n])..Sum(loads)];
    }
  }

  lemma {:induction false} SumOfPrefix(loads: seq<nat>, i: nat, j: nat)
    requires i <= j <= |loads|
    ensures Sum(loads[..i]) <= Sum(loads[..j]) <= Sum(loads)
    ensures i < j ==> Sum(loads[..i + 1]) == Sum(loads[..i]) + loads[i]
    decreases |loads| - i
  {
    assert loads[..|loads|] == loads;
    if i < |loads| {
      assert loads[..i + 1][..i] == loads[..i];
      if i < j { SumOfPrefix(loads, i + 1, j); } else { SumOfPrefix(loads, i + 1, i + 1); }
    }
  }

  lemma {:induction false} ChunksNext(names: seq<string>, loads: seq<nat>, i: nat)
    requires i < |loads| && Sum(loads[..i]) <= Sum(loads[..i + 1]) <= |names|
    ensures Chunks(names, loads[..i + 1])
         == Chunks(names, loads[..i]) + [names[Sum(loads[..i])..Sum(loads[..i + 1])]]
  {
    assert loads[..i + 1][..i] == loads[..i];
  }

  lemma {:induction false} SliceOfRest(all: seq<string>, loads: seq<nat>, i: nat, had: seq<string>)
    requires i < |loads| && Sum(loads) <= |all|
    requires i == 0 ==> had == all
    requires i > 0 ==> Sum(loads[..i]) <= |all| && had == all[Sum(loads[..i])..]
    ensures Sum(loads[..i]) <= Sum(loads[..i + 1]) <= |all| && loads[i] <= |had|
    ensures had[..loads[i]] == all[Sum(loads[..i])..Sum(loads[..i + 1])]
    ensures had[loads[i]..] == all[Sum(loads[..i + 1])..]
  {
    SumOfPrefix(loads, i, i + 1);
  }

  function TokensOf(sent: seq<string>): (ts: seq<seq<string>>)
    ensures |ts| == |sent|
  {
    seq(|sent|, i requires 0 <= i < |sent| => Tokens(sent[i]))
  }

  lemma TokensOfNext(sent: seq<string>, chunk: string)
    ensures TokensOf(sent + [chunk]) == TokensOf(sent) + [Tokens(chunk)]
  {
  }

  /** The static variables of `updateCall`; `all` are the names of the first call. */
  class UpdateCalls {
    var nbScenarios: seq<nat>
    var counter: nat
    var save: string
    ghost var all: seq<string>

    /** What is saved between two calls are the names that the clusters so far did not get. */
    ghost predicate Valid()
      reads this
    {
      counter > 0 ==>
        && counter <= |nbScenarios| && Sum(nbScenarios) <= |all|
        && Sum(nbScenarios[..counter]) <= |all| && Tokens(save) == all[Sum(nbScenarios[..counter])..]
    }

    constructor ()
      ensures Valid() && counter == 0
    {
      nbScenarios, counter, save, all := [], 0, [], [];
    }

    /** One call per cluster: the next names go to this cluster, the others are kept. */
    method UpdateCall(clusters: seq<Estimation>, names: string) returns (chosen: bool, chunk: string)
      requires Valid() && clusters != []
      requires if counter == 0 then |Tokens(names)| >= |clusters[0]| - 1 else counter < |nbScenarios|
      modifies this
      ensures Valid() && counter == old(counter) + 1
      ensures if old(counter) == 0
        then |nbScenarios| == |clusters| && all == Tokens(names)
             && Scheduled(clusters, nbScenarios)
        else nbScenarios == old(nbScenarios) && all == old(all)
      ensures Sum(nbScenarios[..old(counter)]) <= Sum(nbScenarios[..counter]) <= |all|
      ensures Tokens(chunk) == all[Sum(nbScenarios[..old(counter)])..Sum(nbScenarios[..counter])]
      ensures chosen == (Tokens(chunk) != [])
    {
      if counter == 0 {
        nbScenarios := CerfacsSchedule(clusters);
        save, all := names, Tokens(names);
      }
      chunk := [];
      ghost var had := Tokens(save);
      SliceOfRest(all, nbScenarios, counter, had);
      TokensFromClean(save, []);
      var n := nbScenarios[counter];
      if n != 0 {
        chunk, save := TakeNames(save, n);
        TokensJoin(had[..n]);
        TokensJoin(had[n..]);
      }
      counter := counter + 1;
      chosen := n != 0;
    }

    /** The loop of the asynchronous call over all clusters: together they get the first
        names, in order and each once, every cluster as many as it was assigned. */
    method AllCalls(clusters: seq<Estimation>, names: string) returns (sent: seq<string>)
      requires Valid() && counter == 0 && clusters != [] && |Tokens(names)| >= |clusters[0]| - 1
      modifies this
      ensures counter == |sent| == |nbScenarios| == |clusters|
      ensures Scheduled(clusters, nbScenarios)
      ensures TokensOf(sent) == Chunks(Tokens(names), nbScenarios)
      ensures Flatten(TokensOf(sent)) == Tokens(names)[..Sum(nbScenarios)]
    {
      var chosen, chunk := UpdateCall(clusters, names);
      sent := [chunk];
      ChunksNext(all, nbScenarios, 0);
      ghost var loads := nbScenarios;
      while counter < |clusters|
        invariant Valid() && 0 < counter == |sent| <= |nbScenarios| == |clusters| && all == Tokens(names)
        invariant nbScenarios == loads
        invariant TokensOf(sent) == Chunks(all, nbScenarios[..counter])
      {
        ghost var before, i := sent, counter;
        chosen, chunk := UpdateCall(clusters, names);
        sent := sent + [chunk];
        ChunksNext(all, nbScenarios, i);
        TokensOfNext(before, chunk);
      }
      assert nbScenarios[..|nbScenarios|] == nbScenarios;
      ChunksCover(all, nbScenarios);
    }
  }
}
