/** A request travels down a tree of agents and every agent aggregates the responses of its
    children under the same cap. The answer at the top is that of one flat merge. */
module Hierarchy {
  import opened Selection
  import opened Tournament
  import opened Aggregation
  import opened StableMerge

  /** A server compare function seen as one on positions of the responses. */
  function OnPositions<S>(cs: ServerCompare<S>, responses: seq<seq<S>>): Compare {
    (call: nat, x: Node, y: Node) =>
      if Valid(responses, x) && Valid(responses, y) then cs(responses[x.resp][x.srv], responses[y.resp][y.srv])
      else if Valid(responses, x) && !cs(responses[x.resp][x.srv], responses[x.resp][x.srv]).Undefined? then
        FirstIsBetter
      else if Valid(responses, y) && !cs(responses[y.resp][y.srv], responses[y.resp][y.srv]).Undefined? then
        SecondIsBetter
      else Undefined
  }

  predicate Valid<S>(responses: seq<seq<S>>, x: Node) {
    x.At? && x.resp < |responses| && x.srv < |responses[x.resp]|
  }

  ghost predicate Known<S>(dom: S -> bool, responses: seq<seq<S>>) {
    forall k, s :: 0 <= k < |responses| && 0 <= s < |responses[k]| ==> dom(responses[k][s])
  }

  lemma OnPositionsLawful<S(!new)>(cs: ServerCompare<S>, dom: S -> bool, responses: seq<seq<S>>)
    requires LawfulOn(cs, dom) && Known(dom, responses)
    ensures Lawful(OnPositions(cs, responses))
  {
    var cmp := OnPositions(cs, responses);
    forall x: Node, y: Node | Comparable(x, y) ensures PairLaw(cmp, x, y) {
      if Valid(responses, x) && Valid(responses, y) {
        assert PairOk(cs, responses[x.resp][x.srv], responses[y.resp][y.srv]);
      }
    }
    forall x: Node, y: Node, z: Node
      | x.At? && y.At? && z.At? && x.resp != y.resp && y.resp != z.resp && x.resp != z.resp
      ensures TripleLaw(cmp, x, y, z)
    {
      if Valid(responses, x) && Valid(responses, y) && Valid(responses, z) {
        assert TripleOk(cs, responses[x.resp][x.srv], responses[y.resp][y.srv], responses[z.resp][z.srv]);
      }
    }
  }

  // ---------------------------------------------------------------- one pass is a merge

  /** The servers of a response that a pass can reach: those before the first unusable one. */
  function Front<S>(cs: ServerCompare<S>, xs: seq<S>): (front: seq<S>)
    ensures |front| <= |xs|
  {
    if xs == [] || cs(xs[0], xs[0]).Undefined? then [] else [xs[0]] + Front(cs, xs[1..])
  }

  function Fronts<S>(cs: ServerCompare<S>, lists: seq<seq<S>>): (fronts: seq<seq<S>>)
    ensures |fronts| == |lists| && forall k :: 0 <= k < |lists| ==> fronts[k] == Front(cs, lists[k])
  {
    seq(|lists|, k requires 0 <= k < |lists| => Front(cs, lists[k]))
  }

  /** The fronts that remain when the responses have been read up to the given heads. */
  ghost function Remaining<S>(cs: ServerCompare<S>, responses: seq<seq<S>>, heads: seq<nat>): (rem: seq<seq<S>>)
    requires InRange(responses, heads)
    ensures |rem| == |responses| && forall k :: 0 <= k < |rem| ==> rem[k] == Front(cs, responses[k][heads[k]..])
  {
    seq(|responses|, k requires 0 <= k < |responses| => Front(cs, responses[k][heads[k]..]))
  }

  lemma {:induction false} FrontGood<S>(cs: ServerCompare<S>, dom: S -> bool, xs: seq<S>)
    requires forall k :: 0 <= k < |xs| ==> dom(xs[k])
    ensures Good(cs, dom, Front(cs, xs))
    ensures Good(cs, dom, xs) ==> Front(cs, xs) == xs
  {
    if xs != [] && !cs(xs[0], xs[0]).Undefined? {
      FrontGood(cs, dom, xs[1..]);
    }
  }

  /** Draws taken in order give the first draw, then those that follow it. */
  lemma EmitFront<S>(responses: seq<seq<S>>, heads: seq<nat>, r: nat, picks: seq<nat>, all: seq<nat>)
    requires |heads| == |responses| && r < |responses| && heads[r] < |responses[r]| && all == [r] + picks
    requires Draws(Lengths(responses), heads[r := heads[r] + 1], picks)
    ensures Draws(Lengths(responses), heads, all)
    ensures HeadsAfter(heads, all) == HeadsAfter(heads[r := heads[r] + 1], picks)
    ensures Emit(responses, heads, all) == [responses[r][heads[r]]] + Emit(responses, heads[r := heads[r] + 1], picks)
    decreases |picks|
  {
    if picks == [] {
      assert all[..0] == [] && all[0] == r;
    } else {
      var n := |picks| - 1;
      var front := [r] + picks[..n];
      EmitFront(responses, heads, r, picks[..n], front);
      assert all[..n + 1] == front && all[n + 1] == picks[n];
      EmitLast(responses, heads, r, picks, all, front);
    }
  }

  lemma {:induction false} EmitLast<S>(responses: seq<seq<S>>, heads: seq<nat>, r: nat, picks: seq<nat>,
                                       all: seq<nat>, front: seq<nat>)
    requires |heads| == |responses| && r < |responses| && heads[r] < |responses[r]| && picks != []
    requires |all| == |front| + 1 == |picks| + 1 && all[..|front|] == front && all[|front|] == picks[|picks| - 1]
    requires Draws(Lengths(responses), heads[r := heads[r] + 1], picks) && Draws(Lengths(responses), heads, front)
    requires HeadsAfter(heads, front) == HeadsAfter(heads[r := heads[r] + 1], picks[..|picks| - 1])
    requires Emit(responses, heads, front) ==
      [responses[r][heads[r]]] + Emit(responses, heads[r := heads[r] + 1], picks[..|picks| - 1])
    ensures Draws(Lengths(responses), heads, all)
    ensures HeadsAfter(heads, all) == HeadsAfter(heads[r := heads[r] + 1], picks)
    ensures Emit(responses, heads, all) == [responses[r][heads[r]]] + Emit(responses, heads[r := heads[r] + 1], picks)
  {
  }

  /** Naive selection, server by server, is the stable merge of the reachable fronts. */
  lemma {:induction false} PassIsMerge<S(!new)>(cs: ServerCompare<S>, dom: S -> bool, responses: seq<seq<S>>,
                                                cmp: Compare, lens: seq<nat>, heads: seq<nat>, room: nat,
                                                picks: seq<nat>)
    requires LawfulOn(cs, dom) && Known(dom, responses)
    requires cmp == OnPositions(cs, responses) && lens == Lengths(responses)
    requires InRange(responses, heads) && picks == NaivePicks(cmp, lens, heads, room)
    ensures Draws(lens, heads, picks)
    ensures Emit(responses, heads, picks) == Take(room, MergeAll(cs, Remaining(cs, responses, heads)))
    decreases room, 1
  {
    if room > 0 {
      PassStep(cs, dom, responses, cmp, lens, heads, room, picks);
      if picks != [] {
        var r := picks[0];
        OneFurther(responses, heads, r);
        PassRest(cs, dom, responses, cmp, lens, heads, heads[r := heads[r] + 1], room, r, picks[1..], picks);
      }
    }
  }

  lemma {:induction false} PassRest<S(!new)>(cs: ServerCompare<S>, dom: S -> bool, responses: seq<seq<S>>,
                                             cmp: Compare, lens: seq<nat>, heads: seq<nat>, heads': seq<nat>,
                                             room: nat, r: nat, later: seq<nat>, picks: seq<nat>)
    requires LawfulOn(cs, dom) && Known(dom, responses)
    requires cmp == OnPositions(cs, responses) && lens == Lengths(responses) && room > 0 && picks == [r] + later
    requires |heads| == |responses| && r < |responses| && heads[r] < |responses[r]|
    requires heads' == heads[r := heads[r] + 1]
    requires InRange(responses, heads') && later == NaivePicks(cmp, lens, heads', room - 1)
    ensures Draws(lens, heads, picks)
    ensures Emit(responses, heads, picks) ==
      Take(room, [responses[r][heads[r]]] + MergeAll(cs, Remaining(cs, responses, heads')))
    decreases room, 0
  {
    PassIsMerge(cs, dom, responses, cmp, lens, heads', room - 1, later);
    OneMoreDraw(responses, heads, room, r, later, picks, MergeAll(cs, Remaining(cs, responses, heads')));
  }

  ghost predicate InRange<S>(responses: seq<seq<S>>, heads: seq<nat>) {
    |heads| == |responses| && forall k :: 0 <= k < |heads| ==> heads[k] <= |responses[k]|
  }

  lemma OneFurther<S>(responses: seq<seq<S>>, heads: seq<nat>, r: nat)
    requires InRange(responses, heads) && r < |responses| && heads[r] < |responses[r]|
    ensures InRange(responses, heads[r := heads[r] + 1])
  {
  }

  lemma OneMoreDraw<S>(responses: seq<seq<S>>, heads: seq<nat>, room: nat, r: nat,
                       later: seq<nat>, picks: seq<nat>, merged: seq<S>)
    requires |heads| == |responses| && r < |responses| && heads[r] < |responses[r]| && picks == [r] + later && room > 0
    requires Draws(Lengths(responses), heads[r := heads[r] + 1], later)
    requires Emit(responses, heads[r := heads[r] + 1], later) == Take(room - 1, merged)
    ensures Draws(Lengths(responses), heads, picks)
    ensures Emit(responses, heads, picks) == Take(room, [responses[r][heads[r]]] + merged)
  {
    EmitFront(responses, heads, r, later, picks);
    TakeOne(room, responses[r][heads[r]], merged);
  }

  lemma TakeOne<S>(room: nat, x: S, xs: seq<S>)
    requires room > 0
    ensures Take(room, [x] + xs) == [x] + Take(room - 1, xs)
  {
  }

  lemma PassStep<S(!new)>(cs: ServerCompare<S>, dom: S -> bool, responses: seq<seq<S>>,
                   cmp: Compare, lens: seq<nat>, heads: seq<nat>, room: nat, picks: seq<nat>)
    requires LawfulOn(cs, dom) && Known(dom, responses) && room > 0
    requires cmp == OnPositions(cs, responses) && lens == Lengths(responses)
    requires InRange(responses, heads)
    requires picks == NaivePicks(cmp, lens, heads, room)
    ensures picks == [] ==> MergeAll(cs, Remaining(cs, responses, heads)) == []
    ensures picks != [] ==> picks[0] < |responses| && heads[picks[0]] < |responses[picks[0]]|
    ensures picks != [] ==> picks[1..] == NaivePicks(cmp, lens, heads[picks[0] := heads[picks[0]] + 1], room - 1)
    ensures picks != [] ==>
      MergeAll(cs, Remaining(cs, responses, heads)) ==
        [responses[picks[0]][heads[picks[0]]]] +
        MergeAll(cs, Remaining(cs, responses, heads[picks[0] := heads[picks[0]] + 1]))
  {
    var leaves := Leaves(lens, heads);
    OnPositionsLawful(cs, dom, responses);
    NaiveSelectIsBest(cmp, leaves);
    var n := NaiveSelect(cmp, leaves);
    if n.Null? {
      NothingReachable(cs, dom, responses, heads);
    } else {
      SelectedHead(cs, dom, responses, heads, n.resp);
    }
  }

  lemma NothingReachable<S(!new)>(cs: ServerCompare<S>, dom: S -> bool, responses: seq<seq<S>>, heads: seq<nat>)
    requires InRange(responses, heads)
    requires IsBest(OnPositions(cs, responses), Leaves(Lengths(responses), heads), 0, |responses|, Null)
    ensures MergeAll(cs, Remaining(cs, responses, heads)) == []
  {
    var rem, leaves := Remaining(cs, responses, heads), Leaves(Lengths(responses), heads);
    forall k | 0 <= k < |rem| ensures rem[k] == [] {
      assert !Processable(OnPositions(cs, responses), leaves[k]);
    }
    MergeAllEmpty(cs, rem);
  }

  lemma SelectedHead<S(!new)>(cs: ServerCompare<S>, dom: S -> bool, responses: seq<seq<S>>, heads: seq<nat>, r: nat)
    requires LawfulOn(cs, dom) && Known(dom, responses)
    requires InRange(responses, heads)
    requires r < |responses| && heads[r] < |responses[r]|
    requires IsBest(OnPositions(cs, responses), Leaves(Lengths(responses), heads), 0, |responses|, At(r, heads[r]))
    ensures MergeAll(cs, Remaining(cs, responses, heads))
         == [responses[r][heads[r]]] + MergeAll(cs, Remaining(cs, responses, heads[r := heads[r] + 1]))
  {
    var cmp, leaves := OnPositions(cs, responses), Leaves(Lengths(responses), heads);
    var rem, rem' := Remaining(cs, responses, heads), Remaining(cs, responses, heads[r := heads[r] + 1]);
    forall k | 0 <= k < |rem|
      ensures rem[k] != [] <==> Processable(cmp, leaves[k])
      ensures rem[k] != [] ==> heads[k] < |responses[k]| && rem[k][0] == responses[k][heads[k]]
      ensures Good(cs, dom, rem[k])
    {
      FrontGood(cs, dom, responses[k][heads[k]..]);
    }
    assert responses[r][heads[r]..][1..] == responses[r][heads[r] + 1..];
    assert rem' == rem[r := rem[r][1..]];
    MergeAllStep(cs, dom, rem, r);
  }

  // ---------------------------------------------------------------- the answer of an agent

  /** What one pass of a lawful scheduler draws: the fronts of the children's answers merged,
      or the only child's answer as it is, up to the cap. */
  function Reached<S>(cs: ServerCompare<S>, maxSrv: nat, lists: seq<seq<S>>): (taken: seq<S>)
    ensures |taken| <= Cap(Sum(Lengths(lists)), maxSrv)
  {
    var cap := Cap(Sum(Lengths(lists)), maxSrv);
    if |lists| == 1 then Take(cap, lists[0]) else Take(cap, MergeAll(cs, Fronts(cs, lists)))
  }

  /** What an agent with a single, lawful scheduler answers: blanks fill the other places. */
  function Aggregated<S>(cs: ServerCompare<S>, blank: S, maxSrv: nat, lists: seq<seq<S>>): (out: seq<S>)
    ensures |out| == Cap(Sum(Lengths(lists)), maxSrv)
  {
    var cap, taken := Cap(Sum(Lengths(lists)), maxSrv), Reached(cs, maxSrv, lists);
    taken + Blanks(blank, cap - |taken|)
  }

  /** The aggregation of the source, run with one scheduler, gives just that answer. */
  method AggregateOnce<S(0,!new)>(cs: ServerCompare<S>, ghost dom: S -> bool, maxSrv: nat,
                                  responses: seq<seq<S>>, blank: S)
    returns (aggr: array<S>)
    requires LawfulOn(cs, dom) && Known(dom, responses)
    requires forall k :: 0 <= k < |responses| ==> responses[k] != []
    ensures aggr[..] == Aggregated(cs, blank, maxSrv, responses)
  {
    ghost var passes;
    aggr, passes := GlobalAggregate([OnPositions(cs, responses)], maxSrv, responses, blank);
    OneRun(cs, dom, blank, maxSrv, responses, aggr.Length, passes);
  }

  lemma {:induction false} OneRun<S(!new)>(cs: ServerCompare<S>, dom: S -> bool, blank: S, maxSrv: nat,
                                           responses: seq<seq<S>>, cap: nat, passes: seq<seq<nat>>)
    requires LawfulOn(cs, dom) && Known(dom, responses) && cap == Cap(Sum(Lengths(responses)), maxSrv)
    requires Passes([OnPositions(cs, responses)], Lengths(responses), cap, passes)
    requires AllDraw(Lengths(responses), passes) && Drawn(passes) <= cap
    ensures Output(responses, passes) + Blanks(blank, cap - Drawn(passes)) == Aggregated(cs, blank, maxSrv, responses)
  {
    OneScheduler(OnPositions(cs, responses), responses, cap, passes);
    OnlyPass(cs, dom, responses, maxSrv, cap, passes[0]);
  }

  lemma {:induction false} OneScheduler<S>(cmp: Compare, responses: seq<seq<S>>, cap: nat, passes: seq<seq<nat>>)
    requires Passes([cmp], Lengths(responses), cap, passes) && AllDraw(Lengths(responses), passes)
    ensures passes == [passes[0]] && PassResult(cmp, Lengths(responses), Zeros(|responses|), cap, passes[0])
    ensures Output(responses, passes) == Emit(responses, Zeros(|responses|), passes[0])
    ensures Drawn(passes) == |passes[0]|
  {
    assert passes[1..] == [];
    assert passes[..|passes| - 1] == [];
  }

  lemma {:induction false} OnlyPass<S(!new)>(cs: ServerCompare<S>, dom: S -> bool, responses: seq<seq<S>>, k: nat,
                                             cap: nat, picks: seq<nat>)
    requires LawfulOn(cs, dom) && Known(dom, responses) && cap == Cap(Sum(Lengths(responses)), k)
    requires PassResult(OnPositions(cs, responses), Lengths(responses), Zeros(|responses|), cap, picks)
    ensures Emit(responses, Zeros(|responses|), picks) == Reached(cs, k, responses)
    ensures |picks| == |Reached(cs, k, responses)|
  {
    var lens, z := Lengths(responses), Zeros(|responses|);
    if |responses| == 1 {
      SingleResponse(responses, picks);
      assert Sum(lens) == lens[0] + Sum(lens[1..]) == |responses[0]|;
      assert Total(lens, [|picks|]) == lens[0] - |picks| + Total(lens[1..], [|picks|][1..]);
    } else if |responses| >= 2 {
      OnPositionsLawful(cs, dom, responses);
      PassIsMerge(cs, dom, responses, OnPositions(cs, responses), lens, z, cap, picks);
      assert Remaining(cs, responses, z) == Fronts(cs, responses) by {
        assert forall k :: 0 <= k < |responses| ==> responses[k][z[k]..] == responses[k];
      }
    }
  }

  lemma {:induction false} SingleResponse<S>(responses: seq<seq<S>>, picks: seq<nat>)
    requires |responses| == 1 && Draws(Lengths(responses), Zeros(1), picks)
    ensures HeadsAfter(Zeros(1), picks) == [|picks|] && |picks| <= |responses[0]|
    ensures Emit(responses, Zeros(1), picks) == responses[0][..|picks|]
  {
    if picks != [] { SingleResponse(responses, picks[..|picks| - 1]); }
  }

  // ---------------------------------------------------------------- the tree

  /** A server daemon answers with its own (never empty) list; an agent asks its children. */
  datatype Tree<S> = SeD(servers: seq<S>) | Agent(children: seq<Tree<S>>)

  function Answer<S>(cs: ServerCompare<S>, blank: S, k: nat, t: Tree<S>): seq<S>
    decreases t, 1
  {
    match t
    case SeD(servers) => servers
    case Agent(children) => Aggregated(cs, blank, k, Answers(cs, blank, k, children))
  }

  function Answers<S>(cs: ServerCompare<S>, blank: S, k: nat, ts: seq<Tree<S>>): (a: seq<seq<S>>)
    ensures |a| == |ts|
    decreases ts, 0
  {
    if ts == [] then [] else [Answer(cs, blank, k, ts[0])] + Answers(cs, blank, k, ts[1..])
  }

  /** Every daemon lists a server and every agent has a child. */
  predicate Proper<S>(t: Tree<S>)
    decreases t, 1
  {
    match t
    case SeD(servers) => servers != []
    case Agent(children) => children != [] && ProperForest(children)
  }

  predicate ProperForest<S>(ts: seq<Tree<S>>)
    decreases ts, 0
  {
    ts == [] || (Proper(ts[0]) && ProperForest(ts[1..]))
  }

  /** In such a tree no answer is empty, as the aggregation needs it. */
  lemma {:induction false} AnswersNonEmpty<S>(cs: ServerCompare<S>, blank: S, k: nat, ts: seq<Tree<S>>)
    requires ProperForest(ts)
    ensures forall i :: 0 <= i < |ts| ==> Answers(cs, blank, k, ts)[i] != []
    decreases ts, 0
  {
    if ts != [] {
      AnswerNonEmpty(cs, blank, k, ts[0]);
      AnswersNonEmpty(cs, blank, k, ts[1..]);
    }
  }

  lemma {:induction false} AnswerNonEmpty<S>(cs: ServerCompare<S>, blank: S, k: nat, t: Tree<S>)
    requires Proper(t)
    ensures Answer(cs, blank, k, t) != []
    decreases t, 1
  {
    match t
    case SeD(servers) =>
    case Agent(children) =>
      AnswersNonEmpty(cs, blank, k, children);
      NonEmptySum(Answers(cs, blank, k, children), k);
  }

  lemma NonEmptySum<S>(lists: seq<seq<S>>, k: nat)
    requires lists != [] && lists[0] != []
    ensures Cap(Sum(Lengths(lists)), k) > 0
  {
  }

  /** The lists of all server daemons, from left to right. */
  function LeafLists<S>(t: Tree<S>): seq<seq<S>>
    decreases t, 1
  {
    match t
    case SeD(servers) => [servers]
    case Agent(children) => ForestLists(children)
  }

  function ForestLists<S>(ts: seq<Tree<S>>): seq<seq<S>>
    decreases ts, 0
  {
    if ts == [] then [] else LeafLists(ts[0]) + ForestLists(ts[1..])
  }

  /** A cap of 0 asks an agent for all servers. */
  function Limit<S>(k: nat, xs: seq<S>): seq<S> {
    if k == 0 then xs else Take(k, xs)
  }

  lemma {:induction false} FrontTake<S>(cs: ServerCompare<S>, k: nat, xs: seq<S>)
    ensures Front(cs, Take(k, xs)) == Take(k, Front(cs, xs))
    decreases k
  {
    if xs != [] && k > 0 {
      assert Take(k, xs)[1..] == Take(k - 1, xs[1..]);
      FrontTake(cs, k - 1, xs[1..]);
      var f := Front(cs, xs[1..]);
      assert !cs(xs[0], xs[0]).Undefined? ==> Take(k, [xs[0]] + f) == [xs[0]] + Take(k - 1, f);
    }
  }

  /** Blank servers cannot be processed, so they never count. */
  lemma {:induction false} FrontBlanks<S>(cs: ServerCompare<S>, xs: seq<S>, blanks: seq<S>)
    requires forall k :: 0 <= k < |blanks| ==> cs(blanks[k], blanks[k]).Undefined?
    ensures Front(cs, xs + blanks) == Front(cs, xs)
  {
    if xs == [] {
      assert xs + blanks == blanks;
    } else {
      assert (xs + blanks)[1..] == xs[1..] + blanks;
      FrontBlanks(cs, xs[1..], blanks);
    }
  }

  lemma FrontsShorter<S>(cs: ServerCompare<S>, lists: seq<seq<S>>)
    ensures |MergeAll(cs, Fronts(cs, lists))| <= Sum(Lengths(lists))
  {
    if lists != [] {
      FrontsShorter(cs, lists[1..]);
      assert Fronts(cs, lists)[1..] == Fronts(cs, lists[1..]);
      assert Lengths(lists)[1..] == Lengths(lists[1..]);
    }
  }

  /** The reachable part of one agent's answer is the merge of its children's, cut at k. */
  lemma AggregatedFront<S(!new)>(cs: ServerCompare<S>, dom: S -> bool, blank: S, k: nat, lists: seq<seq<S>>)
    requires LawfulOn(cs, dom) && Known(dom, lists) && cs(blank, blank).Undefined?
    ensures Front(cs, Aggregated(cs, blank, k, lists)) == Limit(k, MergeAll(cs, Fronts(cs, lists)))
  {
    var fronts, cap := Fronts(cs, lists), Cap(Sum(Lengths(lists)), k);
    var merged := MergeAll(cs, fronts);
    FrontsShorter(cs, lists);
    forall i | 0 <= i < |lists| ensures Good(cs, dom, fronts[i]) {
      FrontGood(cs, dom, lists[i]);
    }
    MergeAllGood(cs, dom, fronts);
    var taken := Reached(cs, k, lists);
    FrontBlanks(cs, taken, Blanks(blank, cap - |taken|));
    if |lists| == 1 {
      assert fronts[1..] == [] && merged == fronts[0];
      FrontTake(cs, cap, lists[0]);
    } else {
      FrontGood(cs, dom, taken);
    }
    assert Take(cap, merged) == Limit(k, merged);
  }

  ghost predicate KnownTree<S>(dom: S -> bool, t: Tree<S>) {
    Known(dom, LeafLists(t))
  }

  lemma AggregatedKnown<S>(cs: ServerCompare<S>, dom: S -> bool, blank: S, k: nat, lists: seq<seq<S>>)
    requires Known(dom, lists) && dom(blank)
    ensures forall i :: 0 <= i < |Aggregated(cs, blank, k, lists)| ==> dom(Aggregated(cs, blank, k, lists)[i])
  {
    forall i | 0 <= i < |lists| ensures Fronts(cs, lists)[i] <= lists[i] {
      FrontIsPrefix(cs, lists[i]);
    }
    MergedKnown(cs, dom, Fronts(cs, lists));
  }

  lemma {:induction false} FrontIsPrefix<S>(cs: ServerCompare<S>, xs: seq<S>)
    ensures Front(cs, xs) <= xs
  {
    if xs != [] { FrontIsPrefix(cs, xs[1..]); }
  }

  lemma {:induction false} MergedKnown<S>(cs: ServerCompare<S>, dom: S -> bool, lists: seq<seq<S>>)
    requires Known(dom, lists)
    ensures forall x :: x in MergeAll(cs, lists) ==> dom(x)
  {
    if lists != [] {
      assert forall i :: 0 <= i < |lists| - 1 ==> lists[1..][i] == lists[i + 1];
      MergedKnown(cs, dom, lists[1..]);
      Merge2Permutes(cs, lists[0], MergeAll(cs, lists[1..]));
      forall x | x in MergeAll(cs, lists) ensures dom(x) {
        assert x in multiset(MergeAll(cs, lists));
        assert x in lists[0] || x in MergeAll(cs, lists[1..]);
        if x in lists[0] {
          var i :| 0 <= i < |lists[0]| && lists[0][i] == x;
        }
      }
    }
  }

  /** Hierarchical top-k is flat top-k: whatever the shape of the tree, the servers that the
      top agent can use are the first k of one merge of all leaf lists in slot order. */
  lemma {:induction false} TopK<S(!new)>(cs: ServerCompare<S>, dom: S -> bool, blank: S, k: nat, t: Tree<S>)
    requires LawfulOn(cs, dom) && KnownTree(dom, t) && dom(blank) && cs(blank, blank).Undefined?
    ensures forall i :: 0 <= i < |Answer(cs, blank, k, t)| ==> dom(Answer(cs, blank, k, t)[i])
    ensures Limit(k, Front(cs, Answer(cs, blank, k, t))) == Limit(k, MergeAll(cs, Fronts(cs, LeafLists(t))))
    decreases t, 1
  {
    match t
    case SeD(servers) =>
      assert LeafLists(t)[0] == servers && Fronts(cs, LeafLists(t))[1..] == [];
    case Agent(children) =>
      TopKForest(cs, dom, blank, k, children);
      var answers := Answers(cs, blank, k, children);
      AggregatedKnown(cs, dom, blank, k, answers);
      AggregatedFront(cs, dom, blank, k, answers);
      assert Limit(k, Limit(k, MergeAll(cs, Fronts(cs, answers)))) == Limit(k, MergeAll(cs, Fronts(cs, answers)));
  }

  lemma {:induction false} TopKForest<S(!new)>(cs: ServerCompare<S>, dom: S -> bool, blank: S, k: nat,
                                               ts: seq<Tree<S>>)
    requires LawfulOn(cs, dom) && Known(dom, ForestLists(ts)) && dom(blank) && cs(blank, blank).Undefined?
    ensures Known(dom, Answers(cs, blank, k, ts))
    ensures Limit(k, MergeAll(cs, Fronts(cs, Answers(cs, blank, k, ts))))
         == Limit(k, MergeAll(cs, Fronts(cs, ForestLists(ts))))
    decreases ts, 0
  {
    if ts != [] {
      var here, rest := LeafLists(ts[0]), ForestLists(ts[1..]);
      KnownParts(dom, here, rest);
      TopK(cs, dom, blank, k, ts[0]);
      TopKForest(cs, dom, blank, k, ts[1..]);
      var answers, later := Answers(cs, blank, k, ts), Answers(cs, blank, k, ts[1..]);
      assert answers[1..] == later;
      OneMoreAnswer(cs, dom, k, answers, later, here, rest);
    }
  }

  /** Answers that stand for the flat merges of the lists below them can be merged instead. */
  lemma OneMoreAnswer<S(!new)>(cs: ServerCompare<S>, dom: S -> bool, k: nat, answers: seq<seq<S>>,
                        later: seq<seq<S>>, here: seq<seq<S>>, rest: seq<seq<S>>)
    requires LawfulOn(cs, dom) && Known(dom, here) && Known(dom, rest)
    requires answers != [] && later == answers[1..]
    requires Limit(k, Front(cs, answers[0])) == Limit(k, MergeAll(cs, Fronts(cs, here)))
    requires Limit(k, MergeAll(cs, Fronts(cs, later))) == Limit(k, MergeAll(cs, Fronts(cs, rest)))
    ensures Limit(k, MergeAll(cs, Fronts(cs, answers))) == Limit(k, MergeAll(cs, Fronts(cs, here + rest)))
  {
    FrontsTail(cs, answers, later);
    FrontsAppend(cs, here, rest);
    FrontsGood(cs, dom, here);
    FrontsGood(cs, dom, rest);
    MergeAllAppend(cs, dom, Fronts(cs, here), Fronts(cs, rest));
    var a, b := Front(cs, answers[0]), MergeAll(cs, Fronts(cs, later));
    var a', b' := MergeAll(cs, Fronts(cs, here)), MergeAll(cs, Fronts(cs, rest));
    if k > 0 { TakeMerge2(cs, k, a, b, a', b'); }
  }

  lemma FrontsTail<S>(cs: ServerCompare<S>, lists: seq<seq<S>>, rest: seq<seq<S>>)
    requires lists != [] && rest == lists[1..]
    ensures Fronts(cs, lists)[1..] == Fronts(cs, rest) && Fronts(cs, lists)[0] == Front(cs, lists[0])
  {
  }

  lemma FrontsAppend<S>(cs: ServerCompare<S>, here: seq<seq<S>>, rest: seq<seq<S>>)
    ensures Fronts(cs, here + rest) == Fronts(cs, here) + Fronts(cs, rest)
  {
  }

  lemma KnownParts<S>(dom: S -> bool, here: seq<seq<S>>, rest: seq<seq<S>>)
    requires Known(dom, here + rest)
    ensures Known(dom, here) && Known(dom, rest)
  {
    assert forall i :: 0 <= i < |here| ==> (here + rest)[i] == here[i];
    assert forall i :: 0 <= i < |rest| ==> (here + rest)[|here| + i] == rest[i];
  }

  lemma FrontsGood<S>(cs: ServerCompare<S>, dom: S -> bool, lists: seq<seq<S>>)
    requires Known(dom, lists)
    ensures AllGood(cs, dom, Fronts(cs, lists))
  {
    forall i | 0 <= i < |lists| ensures Good(cs, dom, Fronts(cs, lists)[i]) {
      FrontGood(cs, dom, lists[i]);
    }
  }

  /** `submit_local` cuts the final answer to max_srv once more, so a cap of 0, which asks
      every agent below for all its servers, returns none to the client. */
  function Submit<S>(cs: ServerCompare<S>, blank: S, maxSrv: nat, children: seq<Tree<S>>): seq<S> {
    Take(maxSrv, Aggregated(cs, blank, maxSrv, Answers(cs, blank, maxSrv, children)))
  }

  /** For every cap, 0 included, the client sees the first servers of the flat merge. */
  lemma {:induction false} SubmitIsFlat<S(!new)>(cs: ServerCompare<S>, dom: S -> bool, blank: S, k: nat,
                                                 children: seq<Tree<S>>)
    requires LawfulOn(cs, dom) && Known(dom, ForestLists(children)) && dom(blank) && cs(blank, blank).Undefined?
    ensures Front(cs, Submit(cs, blank, k, children)) == Take(k, MergeAll(cs, Fronts(cs, ForestLists(children))))
  {
    var answers := Answers(cs, blank, k, children);
    TopKForest(cs, dom, blank, k, children);
    AggregatedFront(cs, dom, blank, k, answers);
    FrontTake(cs, k, Aggregated(cs, blank, k, answers));
    assert k > 0 ==> Take(k, Take(k, MergeAll(cs, Fronts(cs, answers)))) == Take(k, MergeAll(cs, Fronts(cs, answers)));
  }
}
