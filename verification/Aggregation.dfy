/** `GlobalScheduler::aggregate` of src/agent/GlobalSchedulers.cc: one pass per scheduler
    over the same responses, each pass starting from the first server again because
    `lastAggr` is never written back. */
module Aggregation {
  import opened Common
  import opened Selection
  import opened Tournament

  function Zeros(n: nat): (z: seq<nat>)
    ensures |z| == n && forall k :: 0 <= k < n ==> z[k] == 0
  {
    seq(n, k => 0)
  }

  /** What the successive passes may draw when `room` places are left. */
  ghost predicate Passes(cmps: seq<Compare>, lens: seq<nat>, room: nat, passes: seq<seq<nat>>) {
    if cmps == [] then passes == []
    else
      && passes != [] && PassResult(cmps[0], lens, Zeros(|lens|), room, passes[0])
      && Passes(cmps[1..], lens, room - |passes[0]|, passes[1..])
  }

  ghost predicate AllDraw(lens: seq<nat>, passes: seq<seq<nat>>) {
    if passes == [] then true
    else AllDraw(lens, passes[..|passes| - 1]) && Draws(lens, Zeros(|lens|), passes[|passes| - 1])
  }

  /** The servers emitted by the passes, in order. */
  ghost function Output<S>(responses: seq<seq<S>>, passes: seq<seq<nat>>): (out: seq<S>)
    requires AllDraw(Lengths(responses), passes)
    ensures |out| == Drawn(passes)
  {
    if passes == [] then []
    else
      var before, last := passes[..|passes| - 1], passes[|passes| - 1];
      Output(responses, before) + Emit(responses, Zeros(|responses|), last)
  }

  ghost function Drawn(passes: seq<seq<nat>>): nat {
    if passes == [] then 0 else Drawn(passes[..|passes| - 1]) + |passes[|passes| - 1]|
  }

  /** Passes, read from the front as the loop over the schedulers runs. */
  lemma {:induction false} PassesSnoc(cmps: seq<Compare>, lens: seq<nat>, room: nat, passes: seq<seq<nat>>,
                                      cmp: Compare, picks: seq<nat>)
    requires Passes(cmps, lens, room, passes) && Drawn(passes) <= room
    requires PassResult(cmp, lens, Zeros(|lens|), room - Drawn(passes), picks)
    ensures Passes(cmps + [cmp], lens, room, passes + [picks])
    decreases |cmps|
  {
    if cmps != [] {
      DrawnFront(passes);
      PassesSnoc(cmps[1..], lens, room - |passes[0]|, passes[1..], cmp, picks);
      assert (cmps + [cmp])[1..] == cmps[1..] + [cmp];
      assert (passes + [picks])[1..] == passes[1..] + [picks];
    } else {
      assert (passes + [picks])[1..] == [] && (cmps + [cmp])[1..] == [];
    }
  }

  lemma {:induction false} DrawnFront(passes: seq<seq<nat>>)
    requires passes != []
    ensures Drawn(passes) == |passes[0]| + Drawn(passes[1..])
  {
    var n := |passes| - 1;
    if n > 0 {
      DrawnFront(passes[..n]);
      assert passes[..n][1..] == passes[1..][..n - 1];
    } else {
      assert passes[..0] == [] && passes[1..] == [];
    }
  }

  function Sum(lens: seq<nat>): nat {
    if lens == [] then 0 else lens[0] + Sum(lens[1..])
  }

  /** The response ends up with min(total, max_srv) servers, or all of them if max_srv is 0.
      Places no pass fills keep the blank server that the resized sequence starts with. */
  method GlobalAggregate<S(0)>(cmps: seq<Compare>, maxSrv: nat, responses: seq<seq<S>>, blank: S)
    returns (aggr: array<S>, ghost passes: seq<seq<nat>>)
    requires forall k :: 0 <= k < |responses| ==> responses[k] != []
    ensures fresh(aggr)
    ensures aggr.Length == Cap(Sum(Lengths(responses)), maxSrv)
    ensures maxSrv == 0 || Sum(Lengths(responses)) <= maxSrv ==> aggr.Length == Sum(Lengths(responses))
    ensures 0 < maxSrv <= Sum(Lengths(responses)) ==> aggr.Length == maxSrv
    ensures Passes(cmps, Lengths(responses), aggr.Length, passes) && AllDraw(Lengths(responses), passes)
    ensures Drawn(passes) <= aggr.Length
    ensures aggr[..] == Output(responses, passes) + Blanks(blank, aggr.Length - Drawn(passes))
  {
    var lastAggr := seq(|responses|, k => -1);
    var totalSize := 0;
    for i := 0 to |responses|
      invariant totalSize == Sum(Lengths(responses)[..i])
    {
      SumSnoc(Lengths(responses), i);
      totalSize := totalSize + |responses[i]|;
    }
    assert Lengths(responses)[..|responses|] == Lengths(responses);
    var max := if maxSrv == 0 then totalSize else maxSrv;
    aggr := new S[if totalSize < max then totalSize else max](_ => blank);
    passes := [];
    ghost var lens := Lengths(responses);
    assert Next(lastAggr) == Zeros(|lens|);
    var lastAggregated, call := -1, 0;
    for i := 0 to |cmps|
      invariant Progress(cmps[..i], aggr, lastAggregated, responses, passes, blank)
    {
      lastAggregated, call, passes :=
        OnePass(cmps[..i], cmps[i], aggr, lastAggregated, responses, lastAggr, passes, blank, call);
      assert cmps[..i + 1] == cmps[..i] + [cmps[i]];
    }
    assert cmps[..|cmps|] == cmps;
  }

  /** The response after the passes of the given schedulers. */
  ghost predicate Progress<S>(cmps: seq<Compare>, aggr: array<S>, lastAggregated: int,
                              responses: seq<seq<S>>, passes: seq<seq<nat>>, blank: S)
    reads aggr
  {
    && lastAggregated == Drawn(passes) - 1 && Drawn(passes) <= aggr.Length
    && Passes(cmps, Lengths(responses), aggr.Length, passes) && AllDraw(Lengths(responses), passes)
    && aggr[..] == Output(responses, passes) + Blanks(blank, aggr.Length - Drawn(passes))
  }

  method OnePass<S>(ghost cmps: seq<Compare>, cmp: Compare, aggr: array<S>, last: int, responses: seq<seq<S>>,
                    lastAggr: seq<int>, ghost passes: seq<seq<nat>>, ghost blank: S, call0: nat)
    returns (last': int, call: nat, ghost passes': seq<seq<nat>>)
    requires Progress(cmps, aggr, last, responses, passes, blank)
    requires |lastAggr| == |responses| && forall k :: 0 <= k < |lastAggr| ==> lastAggr[k] == -1
    requires forall k :: 0 <= k < |responses| ==> responses[k] != []
    modifies aggr
    ensures Progress(cmps + [cmp], aggr, last', responses, passes', blank)
  {
    ghost var lens, out, picks := Lengths(responses), Output(responses, passes), [];
    assert Next(lastAggr) == Zeros(|lens|);
    last', call, picks := Aggregate(cmp, aggr, last, responses, lastAggr, call0);
    PassesSnoc(cmps, lens, aggr.Length, passes, cmp, picks);
    AllDrawSnoc(lens, passes, picks);
    OutputSnoc(responses, passes, picks);
    FilledBlanks(out, Emit(responses, Zeros(|lens|), picks), blank, aggr.Length);
    passes' := passes + [picks];
  }

  function Cap(total: nat, maxSrv: nat): (c: nat)
    ensures c <= total && (maxSrv > 0 ==> c <= maxSrv) && (c < total ==> c == maxSrv)
  {
    if maxSrv == 0 || total < maxSrv then total else maxSrv
  }

  function Blanks<S>(blank: S, n: nat): (b: seq<S>)
    ensures |b| == n && forall k :: 0 <= k < n ==> b[k] == blank
  {
    seq(n, k => blank)
  }

  lemma SumSnoc(lens: seq<nat>, i: nat)
    requires i < |lens|
    ensures Sum(lens[..i + 1]) == Sum(lens[..i]) + lens[i]
  {
    SumAppend(lens[..i], [lens[i]]);
    assert lens[..i + 1] == lens[..i] + [lens[i]];
    assert Sum([lens[i]]) == lens[i] + Sum([]);
  }

  lemma {:induction false} SumAppend(a: seq<nat>, b: seq<nat>)
    ensures Sum(a + b) == Sum(a) + Sum(b)
  {
    if a == [] {
      assert a + b == b;
    } else {
      SumAppend(a[1..], b);
      assert (a + b)[1..] == a[1..] + b;
    }
  }

  lemma {:induction false} OutputSnoc<S>(responses: seq<seq<S>>, passes: seq<seq<nat>>, picks: seq<nat>)
    requires AllDraw(Lengths(responses), passes) && Draws(Lengths(responses), Zeros(|responses|), picks)
    ensures AllDraw(Lengths(responses), passes + [picks])
    ensures Output(responses, passes + [picks])
         == Output(responses, passes) + Emit(responses, Zeros(|responses|), picks)
  {
    AllDrawSnoc(Lengths(responses), passes, picks);
    var more := passes + [picks];
    assert more[..|more| - 1] == passes && more[|more| - 1] == picks;
  }

  lemma {:induction false} AllDrawSnoc(lens: seq<nat>, passes: seq<seq<nat>>, picks: seq<nat>)
    requires AllDraw(lens, passes) && Draws(lens, Zeros(|lens|), picks)
    ensures AllDraw(lens, passes + [picks])
    ensures Drawn(passes + [picks]) == Drawn(passes) + |picks|
  {
    var more := passes + [picks];
    assert more[..|more| - 1] == passes && more[|more| - 1] == picks;
  }

  lemma FilledBlanks<S>(out: seq<S>, more: seq<S>, blank: S, n: nat)
    requires |out| + |more| <= n
    ensures Filled(out + Blanks(blank, n - |out|), |out|, more) == (out + more) + Blanks(blank, n - |out| - |more|)
  {
  }

  // ---------------------------------------------------------------- how much one pass emits

  /** Number of processable servers in a row from server s of response k on. */
  ghost function Run(cmp: Compare, k: nat, s: nat, len: nat): nat
    decreases len - s
  {
    if s < len && Processable(cmp, At(k, s)) then 1 + Run(cmp, k, s + 1, len) else 0
  }

  /** All processable servers that no unprocessable one stands before, in the first n responses. */
  ghost function Runs(cmp: Compare, lens: seq<nat>, heads: seq<nat>, n: nat): nat
    requires |heads| == |lens| && n <= |lens|
  {
    if n == 0 then 0 else Runs(cmp, lens, heads, n - 1) + Run(cmp, n - 1, heads[n - 1], lens[n - 1])
  }

  lemma RunsAfterDraw(cmp: Compare, lens: seq<nat>, heads: seq<nat>, n: nat, r: nat)
    requires |heads| == |lens| && n <= |lens| && r < |lens|
    requires heads[r] < lens[r] && Processable(cmp, At(r, heads[r]))
    ensures Runs(cmp, lens, heads[r := heads[r] + 1], n) == Runs(cmp, lens, heads, n) - (if r < n then 1 else 0)
  {
    if n > 0 { RunsAfterDraw(cmp, lens, heads, n - 1, r); }
  }

  lemma {:induction false} RunsZero(cmp: Compare, lens: seq<nat>, heads: seq<nat>, n: nat)
    requires |heads| == |lens| && n <= |lens|
    ensures Runs(cmp, lens, heads, n) == 0 <==>
      forall k :: 0 <= k < n ==> !Processable(cmp, Leaves(lens, heads)[k])
  {
    if n > 0 {
      RunsZero(cmp, lens, heads, n - 1);
      assert Run(cmp, n - 1, heads[n - 1], lens[n - 1]) == 0 <==> !Processable(cmp, Leaves(lens, heads)[n - 1]);
    }
  }

  lemma {:induction false} SelectShows(cmp: Compare, lens: seq<nat>, heads: seq<nat>)
    requires Lawful(cmp) && |heads| == |lens|
    ensures var n := NaiveSelect(cmp, Leaves(lens, heads));
      if n.Null? then Runs(cmp, lens, heads, |lens|) == 0
      else n.resp < |lens| && n == At(n.resp, heads[n.resp]) && heads[n.resp] < lens[n.resp] && Processable(cmp, n)
           && Runs(cmp, lens, heads, |lens|) > 0
  {
    NaiveSelectIsBest(cmp, Leaves(lens, heads));
    RunsZero(cmp, lens, heads, |lens|);
  }

  /** A pass emits exactly the processable servers that no unprocessable one stands before,
      as long as there is room. */
  lemma {:induction false} PassCount(cmp: Compare, lens: seq<nat>, heads: seq<nat>, room: nat)
    requires Lawful(cmp) && |heads| == |lens|
    ensures var runs := Runs(cmp, lens, heads, |lens|);
      |NaivePicks(cmp, lens, heads, room)| == if runs < room then runs else room
    decreases room
  {
    if room > 0 {
      SelectShows(cmp, lens, heads);
      var n := NaiveSelect(cmp, Leaves(lens, heads));
      if n.At? {
        RunsAfterDraw(cmp, lens, heads, |lens|, n.resp);
        PassCount(cmp, lens, heads[n.resp := heads[n.resp] + 1], room - 1);
      }
    }
  }

  // ---------------------------------------------------------------- servers drawn twice

  /** Stands for the responses when only positions matter. */
  ghost function Grid(lens: seq<nat>): (g: seq<seq<Node>>)
    ensures Lengths(g) == lens
    ensures forall k, s :: 0 <= k < |lens| && 0 <= s < lens[k] ==> g[k][s] == At(k, s)
  {
    var g := seq(|lens|, k requires 0 <= k < |lens| => seq(lens[k], s requires 0 <= s < lens[k] => At(k, s)));
    assert Lengths(g) == lens;
    g
  }

  /** The positions of one pass: all those below the final heads, each once. */
  lemma {:induction false} PassPositions(lens: seq<nat>, picks: seq<nat>)
    requires Draws(lens, Zeros(|lens|), picks)
    ensures var out := Emit(Grid(lens), Zeros(|lens|), picks);
      && Distinct(out)
      && (forall x :: x in out <==> x.At? && x.resp < |lens| && x.srv < HeadsAfter(Zeros(|lens|), picks)[x.resp])
  {
    if picks != [] {
      var before, last := picks[..|picks| - 1], picks[|picks| - 1];
      PassPositions(lens, before);
      OneMorePosition(lens, before, last, picks);
    }
  }

  lemma {:induction false} OneMorePosition(lens: seq<nat>, before: seq<nat>, last: nat, picks: seq<nat>)
    requires |picks| == |before| + 1 && before == picks[..|before|] && last == picks[|before|]
    requires Draws(lens, Zeros(|lens|), picks) && Draws(lens, Zeros(|lens|), before)
    ensures var z := Zeros(|lens|);
      forall x :: x in Emit(Grid(lens), z, picks) <==>
        x in Emit(Grid(lens), z, before) || x == At(last, HeadsAfter(z, before)[last])
  {
    var z := Zeros(|lens|);
    assert Emit(Grid(lens), z, picks) == Emit(Grid(lens), z, before) + [At(last, HeadsAfter(z, before)[last])];
  }

  /** Two passes never draw the same server iff they draw from different responses. */
  lemma {:induction false} TwoPasses(lens: seq<nat>, p1: seq<nat>, p2: seq<nat>)
    requires Draws(lens, Zeros(|lens|), p1) && Draws(lens, Zeros(|lens|), p2)
    ensures var z := Zeros(|lens|);
      Distinct(Emit(Grid(lens), z, p1) + Emit(Grid(lens), z, p2)) <==> forall r :: r in p1 ==> r !in p2
  {
    var z := Zeros(|lens|);
    var e1, e2 := Emit(Grid(lens), z, p1), Emit(Grid(lens), z, p2);
    PassPositions(lens, p1);
    PassPositions(lens, p2);
    if r :| r in p1 && r in p2 {
      var i := FirstDraw(lens, p1, r);
      var j := FirstDraw(lens, p2, r);
      assert (e1 + e2)[i] == (e1 + e2)[|e1| + j];
    } else {
      forall i, j | 0 <= i < |e1| && 0 <= j < |e2| ensures e1[i] != e2[j] {
        assert e1[i] in e1 && e2[j] in e2;
        HeadsGrow(z, p1, e1[i].resp);
        HeadsGrow(z, p2, e2[j].resp);
        assert e1[i].resp in p1 && e2[j].resp in p2;
      }
    }
  }

  /** The first draw from a response takes its first server. */
  lemma FirstDraw(lens: seq<nat>, picks: seq<nat>, r: nat) returns (i: nat)
    requires Draws(lens, Zeros(|lens|), picks) && r in picks
    ensures i < |picks| && Emit(Grid(lens), Zeros(|lens|), picks)[i] == At(r, 0)
  {
    var before, last := picks[..|picks| - 1], picks[|picks| - 1];
    if r in before {
      i := FirstDraw(lens, before, r);
    } else {
      i := |picks| - 1;
      assert picks == before + [last];
      HeadsGrow(Zeros(|lens|), before, r);
    }
  }

  /** A compare function that puts response r before all others. */
  function Prefer(r: nat): Compare {
    (call: nat, x: Node, y: Node) =>
      if x.Null? || y.Null? || Rank(r, x.resp) <= Rank(r, y.resp) then FirstIsBetter else SecondIsBetter
  }

  function Rank(r: nat, k: nat): int {
    if k == r then -1 else k
  }

  lemma {:induction false} NaivePicksResult(cmp: Compare, lens: seq<nat>, start: seq<nat>, picks: seq<nat>,
                                            heads: seq<nat>, room: nat, more: seq<nat>, all: seq<nat>)
    requires Lawful(cmp) && NeverUndefined(cmp) && |start| == |lens| && Draws(lens, start, picks)
    requires heads == HeadsAfter(start, picks) && forall k :: 0 <= k < |lens| ==> heads[k] <= lens[k]
    requires more == NaivePicks(cmp, lens, heads, room) && all == picks + more
    ensures Draws(lens, start, all)
    ensures |more| < room ==> Total(lens, HeadsAfter(start, all)) == 0
    decreases room
  {
    NaivePicksStep(cmp, lens, heads, room, more);
    if more == [] {
      assert all == picks;
    } else {
      var longer := picks + [more[0]];
      DrawsSnoc(lens, start, picks, more[0]);
      TakeFirst(picks, more, longer, all);
      NaivePicksResult(cmp, lens, start, longer, heads[more[0] := heads[more[0]] + 1], room - 1, more[1..], all);
    }
  }

  lemma TakeFirst(picks: seq<nat>, more: seq<nat>, longer: seq<nat>, all: seq<nat>)
    requires more != [] && longer == picks + [more[0]] && all == picks + more
    ensures all == longer + more[1..]
  {
  }

  lemma NaivePicksStep(cmp: Compare, lens: seq<nat>, heads: seq<nat>, room: nat, more: seq<nat>)
    requires Lawful(cmp) && NeverUndefined(cmp) && |heads| == |lens|
    requires forall k :: 0 <= k < |lens| ==> heads[k] <= lens[k]
    requires more == NaivePicks(cmp, lens, heads, room)
    ensures if more == [] then room == 0 || Total(lens, heads) == 0
      else room > 0 && more[0] < |lens| && heads[more[0]] < lens[more[0]]
           && more[1..] == NaivePicks(cmp, lens, heads[more[0] := heads[more[0]] + 1], room - 1)
  {
    SelectShows(cmp, lens, heads);
    if more == [] && room > 0 { NothingLeft(cmp, lens, heads); }
  }

  lemma {:induction false} NothingLeft(cmp: Compare, lens: seq<nat>, heads: seq<nat>)
    requires Lawful(cmp) && NeverUndefined(cmp) && |heads| == |lens|
    requires forall k :: 0 <= k < |lens| ==> heads[k] <= lens[k]
    requires NaiveSelect(cmp, Leaves(lens, heads)).Null?
    ensures Total(lens, heads) == 0
  {
    SelectShows(cmp, lens, heads);
    RunsZero(cmp, lens, heads, |lens|);
    forall k | 0 <= k < |lens| ensures heads[k] == lens[k] {
      assert !Processable(cmp, Leaves(lens, heads)[k]);
    }
    TotalZero(lens, heads);
  }

  /** However rand() answers, the second pass draws no server that the first one drew. */
  ghost predicate NeverTwice(lens: seq<nat>, p1: seq<nat>, room: int) {
    forall rand: Compare, p2: seq<nat> ::
      NeverUndefined(rand) && PassResult(rand, lens, Zeros(|lens|), room, p2) ==> NoRepeat(lens, p1, p2)
  }

  ghost predicate NoRepeat(lens: seq<nat>, p1: seq<nat>, p2: seq<nat>) {
    Draws(lens, Zeros(|lens|), p1) && Draws(lens, Zeros(|lens|), p2) ==>
      Distinct(Emit(Grid(lens), Zeros(|lens|), p1) + Emit(Grid(lens), Zeros(|lens|), p2))
  }

  /** `StdGS` runs a round-robin pass and then a random one. However rand() answers, no
      server is returned twice iff the first pass found nothing or filled the response:
      the processable servers in front of their responses are none, or at least `cap`. A
      single response is drawn from without asking, so there its length counts. */
  lemma {:induction false} StdGSReturnsNoServerTwice(rr: Compare, lens: seq<nat>, cap: nat, p1: seq<nat>)
    requires Lawful(rr) && (forall k :: 0 <= k < |lens| ==> lens[k] > 0)
    requires PassResult(rr, lens, Zeros(|lens|), cap, p1)
    ensures NeverTwice(lens, p1, cap - |p1|) <==>
      if |lens| == 1 then cap <= lens[0]
      else Runs(rr, lens, Zeros(|lens|), |lens|) == 0 || Runs(rr, lens, Zeros(|lens|), |lens|) >= cap
  {
    if |lens| >= 2 {
      PassCount(rr, lens, Zeros(|lens|), cap);
    } else {
      FewResponses(lens, cap, p1);
    }
    if p1 == [] || |p1| == cap {
      NothingRepeated(lens, p1, cap - |p1|);
    } else {
      SomethingRepeated(lens, p1, cap - |p1|);
    }
  }

  /** From one response a pass draws as much as it can, from none nothing. */
  lemma {:induction false} FewResponses(lens: seq<nat>, cap: nat, picks: seq<nat>)
    requires |lens| <= 1 && Draws(lens, Zeros(|lens|), picks) && |picks| <= cap
    requires |picks| < cap && |lens| == 1 ==> Total(lens, HeadsAfter(Zeros(|lens|), picks)) == 0
    ensures lens == [] ==> picks == []
    ensures lens != [] ==> |picks| == if cap <= lens[0] then cap else lens[0]
  {
    if lens != [] {
      var heads := HeadsAfter(Zeros(1), picks);
      OneResponse(lens, picks);
      assert Total(lens, heads) == lens[0] - heads[0] + Total(lens[1..], heads[1..]);
    }
  }

  lemma {:induction false} OneResponse(lens: seq<nat>, picks: seq<nat>)
    requires |lens| == 1 && Draws(lens, Zeros(1), picks)
    ensures HeadsAfter(Zeros(1), picks)[0] == |picks| <= lens[0]
  {
    if picks != [] { OneResponse(lens, picks[..|picks| - 1]); }
  }

  lemma {:induction false} SomethingRepeated(lens: seq<nat>, p1: seq<nat>, room: nat)
    requires |lens| >= 1 && (forall k :: 0 <= k < |lens| ==> lens[k] > 0)
    requires Draws(lens, Zeros(|lens|), p1) && p1 != [] && room > 0
    ensures !NeverTwice(lens, p1, room)
  {
    var rand, p2 := RepeatedServer(lens, room, p1);
    assert !NoRepeat(lens, p1, p2);
  }

  lemma {:induction false} NothingRepeated(lens: seq<nat>, p1: seq<nat>, room: nat)
    requires Draws(lens, Zeros(|lens|), p1) && (p1 == [] || room == 0)
    ensures NeverTwice(lens, p1, room)
  {
    forall rand: Compare, p2: seq<nat> | NeverUndefined(rand) && PassResult(rand, lens, Zeros(|lens|), room, p2)
      ensures NoRepeat(lens, p1, p2)
    {
      TwoPasses(lens, p1, p2);
    }
  }

  /** An outcome of rand() under which a second pass repeats the first server of a response
      that the first pass drew from. */
  lemma RepeatedServer(lens: seq<nat>, room: nat, p1: seq<nat>) returns (rand: Compare, p2: seq<nat>)
    requires |lens| >= 1 && (forall k :: 0 <= k < |lens| ==> lens[k] > 0)
    requires Draws(lens, Zeros(|lens|), p1) && p1 != [] && room > 0
    ensures NeverUndefined(rand) && PassResult(rand, lens, Zeros(|lens|), room, p2)
    ensures !Distinct(Emit(Grid(lens), Zeros(|lens|), p1) + Emit(Grid(lens), Zeros(|lens|), p2))
  {
    var z, r := Zeros(|lens|), p1[0];
    FirstPickInRange(lens, p1);
    rand := Prefer(r);
    PreferLawful(r);
    p2 := NaivePicks(rand, lens, z, room);
    NaivePicksResult(rand, lens, z, [], z, room, p2, p2);
    PreferredFirst(lens, r, room);
    assert r in p1 && r in p2;
    TwoPasses(lens, p1, p2);
  }

  lemma {:induction false} FirstPickInRange(lens: seq<nat>, picks: seq<nat>)
    requires Draws(lens, Zeros(|lens|), picks) && picks != []
    ensures picks[0] < |lens|
  {
    if |picks| > 1 { FirstPickInRange(lens, picks[..|picks| - 1]); }
  }

  lemma PreferLawful(r: nat)
    ensures Lawful(Prefer(r)) && NeverUndefined(Prefer(r))
  {
    var cmp := Prefer(r);
    forall x: Node, y: Node | Comparable(x, y) ensures PairLaw(cmp, x, y) {
      assert x != y ==> Rank(r, x.resp) != Rank(r, y.resp);
    }
  }

  lemma {:induction false} PreferredFirst(lens: seq<nat>, r: nat, room: nat)
    requires r < |lens| && room > 0 && forall k :: 0 <= k < |lens| ==> lens[k] > 0
    ensures var p := NaivePicks(Prefer(r), lens, Zeros(|lens|), room); p != [] && p[0] == r
  {
    var leaves := Leaves(lens, Zeros(|lens|));
    PreferLawful(r);
    NaiveSelectIsBest(Prefer(r), leaves);
    assert leaves[r] == At(r, 0) && Processable(Prefer(r), leaves[r]);
    assert IsBest(Prefer(r), leaves, 0, |leaves|, At(r, 0));
    BestIsUnique(Prefer(r), leaves, 0, |leaves|, At(r, 0), NaiveSelect(Prefer(r), leaves));
  }
}
