/** The scheduler that agents run unless told otherwise: `StdGS::init` of
    src/agent/GlobalSchedulers.cc puts a round-robin pass and a random one in a row. */
module DefaultScheduler {
  import opened Common
  import opened Selection
  import opened Tournament
  import opened Aggregation
  import opened StableMerge
  import opened Hierarchy
  import opened Estimates
  import opened SearchResults

  // ---------------------------------------------------------------- round robin on positions

  /** RRScheduler_compare on the positions of these responses; no others are ever compared. */
  function RRPositions(responses: seq<seq<Server>>): Compare {
    (call: nat, x: Node, y: Node) =>
      if Valid(responses, x) && Valid(responses, y) then RROnPositions(responses, x, y)
      else OnPositions(RR, responses)(call, x, y)
  }

  ghost predicate SameVerdicts(c1: Compare, c2: Compare) {
    forall call, x, y :: c1(call, x, y) == c2(call, x, y)
  }

  lemma RRPositionsAgree(responses: seq<seq<Server>>)
    requires Known(RRValue, responses)
    ensures SameVerdicts(RRPositions(responses), OnPositions(RR, responses))
  {
    forall call, x, y ensures RRPositions(responses)(call, x, y) == OnPositions(RR, responses)(call, x, y) {
      if Valid(responses, x) && Valid(responses, y) {
        RRAgrees(responses, call, x, y);
      }
    }
  }

  lemma {:induction false} SameSelection(c1: Compare, c2: Compare, leaves: seq<Node>)
    requires SameVerdicts(c1, c2)
    ensures NaiveSelect(c1, leaves) == NaiveSelect(c2, leaves)
  {
    if leaves != [] { SameSelection(c1, c2, leaves[..|leaves| - 1]); }
  }

  lemma {:induction false} SamePicks(c1: Compare, c2: Compare, lens: seq<nat>, heads: seq<nat>, room: nat)
    requires SameVerdicts(c1, c2) && |heads| == |lens|
    ensures NaivePicks(c1, lens, heads, room) == NaivePicks(c2, lens, heads, room)
    decreases room
  {
    SameSelection(c1, c2, Leaves(lens, heads));
    var best := NaiveSelect(c1, Leaves(lens, heads));
    if room > 0 && best.At? && best.resp < |lens| {
      SamePicks(c1, c2, lens, heads[best.resp := heads[best.resp] + 1], room - 1);
    }
  }

  lemma SameLaws(c1: Compare, c2: Compare)
    requires SameVerdicts(c1, c2) && Lawful(c2)
    ensures Lawful(c1)
  {
    forall x: Node, y: Node | Comparable(x, y) ensures PairLaw(c1, x, y) {
      assert PairLaw(c2, x, y);
    }
    forall x: Node, y: Node, z: Node
      | x.At? && y.At? && z.At? && x.resp != y.resp && y.resp != z.resp && x.resp != z.resp
      ensures TripleLaw(c1, x, y, z)
    {
      assert TripleLaw(c2, x, y, z);
    }
  }

  /** What one pass may draw depends on the verdicts only. */
  lemma SamePass(c1: Compare, c2: Compare, lens: seq<nat>, room: int, picks: seq<nat>)
    requires SameVerdicts(c1, c2) && PassResult(c1, lens, Zeros(|lens|), room, picks) && room >= 0
    ensures PassResult(c2, lens, Zeros(|lens|), room, picks)
  {
    SamePicks(c1, c2, lens, Zeros(|lens|), room);
    if Lawful(c2) { SameLaws(c1, c2); }
  }

  // ---------------------------------------------------------------- one agent

  /** The outcome of `aggregate` with the schedulers of StdGS, for the answers that rand()
      gives: what GlobalAggregate ensures of them. */
  ghost predicate StdRun(rand: Compare, k: nat, responses: seq<seq<Server>>, passes: seq<seq<nat>>, out: seq<Server>)
  {
    var lens, cap := Lengths(responses), Cap(Sum(Lengths(responses)), k);
    && |passes| == 2 && |passes[0]| + |passes[1]| <= cap
    && PassResult(RRPositions(responses), lens, Zeros(|lens|), cap, passes[0])
    && PassResult(rand, lens, Zeros(|lens|), cap - |passes[0]|, passes[1])
    && out == Emit(responses, Zeros(|lens|), passes[0]) + Emit(responses, Zeros(|lens|), passes[1])
              + Blanks(BLANK, cap - |passes[0]| - |passes[1]|)
  }

  /** The usable fronts suffice for the answer, or the only response is passed on. */
  predicate FillsCap(k: nat, lists: seq<seq<Server>>) {
    |lists| == 1 || Cap(Sum(Lengths(lists)), k) <= Sum(Lengths(Fronts(RR, lists)))
  }

  lemma {:induction false} TwoSchedulers<S>(c1: Compare, c2: Compare, responses: seq<seq<S>>, cap: nat,
                                            passes: seq<seq<nat>>)
    requires Passes([c1, c2], Lengths(responses), cap, passes) && AllDraw(Lengths(responses), passes)
    requires Drawn(passes) <= cap
    ensures |passes| == 2
    ensures PassResult(c1, Lengths(responses), Zeros(|responses|), cap, passes[0])
    ensures PassResult(c2, Lengths(responses), Zeros(|responses|), cap - |passes[0]|, passes[1])
    ensures Output(responses, passes)
         == Emit(responses, Zeros(|responses|), passes[0]) + Emit(responses, Zeros(|responses|), passes[1])
    ensures Drawn(passes) == |passes[0]| + |passes[1]|
  {
    assert [c1, c2][1..] == [c2] && [c2][1..] == [];
    assert Passes([c2], Lengths(responses), cap - |passes[0]|, passes[1..]);
    assert Passes([], Lengths(responses), cap - |passes[0]| - |passes[1]|, passes[1..][1..]);
    assert passes == [passes[0], passes[1]];
    var first := passes[..1];
    assert first[..0] == [] && first == [passes[0]];
    assert Output(responses, first) == Emit(responses, Zeros(|responses|), passes[0]);
  }

  lemma {:induction false} TotalAfter(lens: seq<nat>, picks: seq<nat>)
    requires Draws(lens, Zeros(|lens|), picks)
    ensures Total(lens, HeadsAfter(Zeros(|lens|), picks)) == Sum(lens) - |picks|
  {
    if picks == [] {
      TotalSum(lens);
    } else {
      var before, last := picks[..|picks| - 1], picks[|picks| - 1];
      TotalAfter(lens, before);
      TotalAfterDraw(lens, HeadsAfter(Zeros(|lens|), before), last);
    }
  }

  lemma {:induction false} TotalSum(lens: seq<nat>)
    ensures Total(lens, Zeros(|lens|)) == Sum(lens)
  {
    if lens != [] {
      TotalSum(lens[1..]);
      assert Zeros(|lens|)[1..] == Zeros(|lens| - 1);
    }
  }

  lemma {:induction false} MergeAllLength<S>(cs: ServerCompare<S>, lists: seq<seq<S>>)
    ensures |MergeAll(cs, lists)| == Sum(Lengths(lists))
  {
    if lists != [] {
      MergeAllLength(cs, lists[1..]);
      assert Lengths(lists)[1..] == Lengths(lists[1..]);
    }
  }

  lemma ReachedLength(k: nat, lists: seq<seq<Server>>)
    ensures |Reached(RR, k, lists)| == Cap(Sum(Lengths(lists)), k) <==> FillsCap(k, lists)
  {
    MergeAllLength(RR, Fronts(RR, lists));
    if |lists| == 1 {
      assert Sum(Lengths(lists)) == Lengths(lists)[0] + Sum(Lengths(lists)[1..]) == |lists[0]|;
    }
  }

  /** The round-robin pass draws the merge of the usable fronts. */
  lemma {:induction false} RoundRobinPass(responses: seq<seq<Server>>, k: nat, cap: nat, picks: seq<nat>)
    requires Known(RRValue, responses) && cap == Cap(Sum(Lengths(responses)), k)
    requires PassResult(RRPositions(responses), Lengths(responses), Zeros(|responses|), cap, picks)
    ensures Emit(responses, Zeros(|responses|), picks) == Reached(RR, k, responses)
    ensures |picks| == |Reached(RR, k, responses)|
  {
    RRPositionsAgree(responses);
    SamePass(RRPositions(responses), OnPositions(RR, responses), Lengths(responses), cap, picks);
    RRLaws();
    OnlyPass(RR, RRValue, responses, k, cap, picks);
  }

  lemma LastPassFills(lens: seq<nat>, room: nat, picks: seq<nat>)
    requires Draws(lens, Zeros(|lens|), picks) && |picks| <= room <= Sum(lens)
    requires |picks| < room ==> Total(lens, HeadsAfter(Zeros(|lens|), picks)) == 0
    ensures |picks| == room
  {
    TotalAfter(lens, picks);
  }

  /** However rand() answers, the answer begins with the merge of the usable fronts under
      round robin; the random pass follows. */
  lemma {:induction false} StdPrefix(rand: Compare, k: nat, responses: seq<seq<Server>>, passes: seq<seq<nat>>,
                                     out: seq<Server>)
    requires Known(RRValue, responses) && StdRun(rand, k, responses, passes, out)
    ensures |passes| == 2 && |Reached(RR, k, responses)| + |passes[1]| <= |out| == Cap(Sum(Lengths(responses)), k)
    ensures PassResult(rand, Lengths(responses), Zeros(|responses|), |out| - |Reached(RR, k, responses)|, passes[1])
    ensures out == Reached(RR, k, responses) + Emit(responses, Zeros(|responses|), passes[1])
                   + Blanks(BLANK, |out| - |Reached(RR, k, responses)| - |passes[1]|)
  {
    RoundRobinPass(responses, k, Cap(Sum(Lengths(responses)), k), passes[0]);
  }

  /** rand() always decides, so no place stays blank. */
  lemma {:induction false} NoBlanks(rand: Compare, k: nat, responses: seq<seq<Server>>, passes: seq<seq<nat>>,
                                    out: seq<Server>)
    requires Known(RRValue, responses) && StdRun(rand, k, responses, passes, out) && NeverUndefined(rand)
    ensures |passes| == 2 && Draws(Lengths(responses), Zeros(|responses|), passes[1])
    ensures out == Reached(RR, k, responses) + Emit(responses, Zeros(|responses|), passes[1])
    ensures |out| == Cap(Sum(Lengths(responses)), k)
  {
    FillsUp(rand, k, Lengths(responses), passes[0], passes[1]);
    StdPrefix(rand, k, responses, passes, out);
    RoundRobinPass(responses, k, |out|, passes[0]);
    NoneBehind(Reached(RR, k, responses) + Emit(responses, Zeros(|responses|), passes[1]), out);
  }

  lemma FillsUp(rand: Compare, k: nat, lens: seq<nat>, p1: seq<nat>, p2: seq<nat>)
    requires NeverUndefined(rand) && |p1| + |p2| <= Cap(Sum(lens), k)
    requires PassResult(rand, lens, Zeros(|lens|), Cap(Sum(lens), k) - |p1|, p2)
    ensures |p1| + |p2| == Cap(Sum(lens), k)
  {
    LastPassFills(lens, Cap(Sum(lens), k) - |p1|, p2);
  }

  lemma NoneBehind(xs: seq<Server>, out: seq<Server>)
    requires |xs| == |out| && out == xs + Blanks(BLANK, |out| - |xs|)
    ensures out == xs
  {
  }

  /** A second scheduler that always decides leaves no place free. */
  lemma {:induction false} RandFills<S>(first: Compare, rand: Compare, responses: seq<seq<S>>, cap: nat,
                                        passes: seq<seq<nat>>)
    requires Passes([first, rand], Lengths(responses), cap, passes) && AllDraw(Lengths(responses), passes)
    requires Drawn(passes) <= cap <= Sum(Lengths(responses)) && NeverUndefined(rand)
    ensures Drawn(passes) == cap
  {
    TwoSchedulers(first, rand, responses, cap, passes);
    LastPassFills(Lengths(responses), cap - |passes[0]|, passes[1]);
  }

  /** The answer begins with the merge of the usable fronts, holds listed servers only, and is
      this merge exactly when the fronts suffice to fill it. */
  lemma StdIsMerge(rand: Compare, k: nat, responses: seq<seq<Server>>, passes: seq<seq<nat>>, out: seq<Server>)
    requires Known(RRValue, responses) && StdRun(rand, k, responses, passes, out) && NeverUndefined(rand)
    ensures Reached(RR, k, responses) <= out && |out| == Cap(Sum(Lengths(responses)), k)
    ensures forall x :: x in out ==> Listed(responses, x)
    ensures out == Reached(RR, k, responses) <==> FillsCap(k, responses)
    ensures out == Aggregated(RR, BLANK, k, responses) || !FillsCap(k, responses)
  {
    NoBlanks(rand, k, responses, passes, out);
    ReachedLength(k, responses);
    EmitListed(responses, Zeros(|responses|), passes[1]);
    ReachedListed(k, responses);
  }

  ghost predicate Listed<S>(lists: seq<seq<S>>, x: S) {
    exists i :: 0 <= i < |lists| && x in lists[i]
  }

  lemma {:induction false} EmitListed<S>(responses: seq<seq<S>>, heads: seq<nat>, picks: seq<nat>)
    requires |heads| == |responses| && Draws(Lengths(responses), heads, picks)
    ensures forall x :: x in Emit(responses, heads, picks) ==> Listed(responses, x)
  {
    if picks != [] {
      var before, last := picks[..|picks| - 1], picks[|picks| - 1];
      EmitListed(responses, heads, before);
      assert responses[last][HeadsAfter(heads, before)[last]] in responses[last];
    }
  }

  lemma ReachedListed(k: nat, lists: seq<seq<Server>>)
    ensures forall x :: x in Reached(RR, k, lists) ==> Listed(lists, x)
  {
    forall x | x in Reached(RR, k, lists) ensures Listed(lists, x) {
      if |lists| == 1 {
        assert x in lists[0];
      } else {
        assert x in MergeAll(RR, Fronts(RR, lists));
        MergedListed(RR, Fronts(RR, lists), x);
        var i :| 0 <= i < |lists| && x in Fronts(RR, lists)[i];
        FrontIsPrefix(RR, lists[i]);
        assert x in lists[i];
      }
    }
  }

  lemma {:induction false} MergedListed<S>(cs: ServerCompare<S>, lists: seq<seq<S>>, x: S)
    requires x in MergeAll(cs, lists)
    ensures Listed(lists, x)
  {
    Merge2Permutes(cs, lists[0], MergeAll(cs, lists[1..]));
    assert x in multiset(MergeAll(cs, lists));
    if x !in lists[0] {
      MergedListed(cs, lists[1..], x);
      var i :| 0 <= i < |lists[1..]| && x in lists[1..][i];
      assert lists[1..][i] == lists[i + 1];
    }
  }

  /** The aggregation of the source, run with the two schedulers of StdGS. */
  method AggregateDefault(rand: Compare, maxSrv: nat, responses: seq<seq<Server>>)
    returns (aggr: array<Server>, ghost passes: seq<seq<nat>>)
    requires Known(RRValue, responses) && forall k :: 0 <= k < |responses| ==> responses[k] != []
    ensures fresh(aggr) && StdRun(rand, maxSrv, responses, passes, aggr[..])
    ensures Reached(RR, maxSrv, responses) <= aggr[..]
    ensures NeverUndefined(rand) ==> |passes[0]| + |passes[1]| == aggr.Length
    ensures NeverUndefined(rand) ==>
      (aggr[..] == Reached(RR, maxSrv, responses) <==> FillsCap(maxSrv, responses))
  {
    aggr, passes := GlobalAggregate([RRPositions(responses), rand], maxSrv, responses, BLANK);
    PassesRun(rand, maxSrv, responses, aggr.Length, passes, aggr[..]);
    StdPrefix(rand, maxSrv, responses, passes, aggr[..]);
    if NeverUndefined(rand) {
      StdIsMerge(rand, maxSrv, responses, passes, aggr[..]);
    }
  }

  lemma PassesRun(rand: Compare, k: nat, responses: seq<seq<Server>>, cap: nat, passes: seq<seq<nat>>, out: seq<Server>)
    requires cap == Cap(Sum(Lengths(responses)), k)
    requires Passes([RRPositions(responses), rand], Lengths(responses), cap, passes)
    requires AllDraw(Lengths(responses), passes) && Drawn(passes) <= cap
    requires out == Output(responses, passes) + Blanks(BLANK, cap - Drawn(passes))
    ensures StdRun(rand, k, responses, passes, out)
    ensures NeverUndefined(rand) ==> |passes[0]| + |passes[1]| == cap
  {
    TwoSchedulers(RRPositions(responses), rand, responses, cap, passes);
    if NeverUndefined(rand) {
      RandFills(RRPositions(responses), rand, responses, cap, passes);
    }
  }

  // ---------------------------------------------------------------- servers returned twice

  lemma SelfVerdict(responses: seq<seq<Server>>, x: Node)
    requires Valid(responses, x)
    ensures RRPositions(responses)(0, x, x) == RRCompare(true, responses[x.resp][x.srv], responses[x.resp][x.srv])
  {
    assert RROnPositions(responses, x, x) == RRCompare(true, responses[x.resp][x.srv], responses[x.resp][x.srv]);
    assert RRPositions(responses)(0, x, x) == RROnPositions(responses, x, x);
  }

  lemma {:induction false} RunIsFront(responses: seq<seq<Server>>, r: nat, s: nat)
    requires Known(RRValue, responses) && r < |responses| && s <= |responses[r]|
    ensures Run(RRPositions(responses), r, s, |responses[r]|) == |Front(RR, responses[r][s..])|
    decreases |responses[r]| - s
  {
    if s < |responses[r]| {
      RunIsFront(responses, r, s + 1);
      var x := responses[r][s];
      assert responses[r][s..][0] == x && responses[r][s..][1..] == responses[r][s + 1..];
      RRSelfCompare(x);
      assert RRValue(x) && RR(x, x) == RRCompare(false, x, x);
      SelfVerdict(responses, At(r, s));
    } else {
      assert responses[r][s..] == [];
    }
  }

  lemma {:induction false} RunsAreFronts(responses: seq<seq<Server>>, n: nat)
    requires Known(RRValue, responses) && n <= |responses|
    ensures Runs(RRPositions(responses), Lengths(responses), Zeros(|responses|), n)
         == Sum(Lengths(Fronts(RR, responses))[..n])
  {
    if n > 0 {
      RunsAreFronts(responses, n - 1);
      RunIsFront(responses, n - 1, 0);
      assert responses[n - 1][0..] == responses[n - 1];
      SumSnoc(Lengths(Fronts(RR, responses)), n - 1);
    }
  }

  /** The default scheduler can return a server twice exactly when round robin found some
      servers, but not enough of them. */
  lemma {:induction false} NoRepeatIffFull(k: nat, responses: seq<seq<Server>>, lens: seq<nat>, cap: nat,
                                           p1: seq<nat>)
    requires Known(RRValue, responses) && forall i :: 0 <= i < |responses| ==> responses[i] != []
    requires lens == Lengths(responses) && cap == Cap(Sum(lens), k)
    requires PassResult(RRPositions(responses), lens, Zeros(|lens|), cap, p1)
    ensures NeverTwice(lens, p1, cap - |p1|) <==> FillsCap(k, responses) || Reached(RR, k, responses) == []
  {
    RRPositionsLawful(responses);
    StdGSReturnsNoServerTwice(RRPositions(responses), lens, cap, p1);
    AllRuns(responses);
    FullOrEmpty(k, responses, cap, lens);
  }

  lemma RRPositionsLawful(responses: seq<seq<Server>>)
    requires Known(RRValue, responses)
    ensures Lawful(RRPositions(responses))
  {
    RRLaws();
    OnPositionsLawful(RR, RRValue, responses);
    RRPositionsAgree(responses);
    SameLaws(RRPositions(responses), OnPositions(RR, responses));
  }

  lemma {:induction false} AllRuns(responses: seq<seq<Server>>)
    requires Known(RRValue, responses)
    ensures Runs(RRPositions(responses), Lengths(responses), Zeros(|responses|), |responses|)
         == Sum(Lengths(Fronts(RR, responses)))
  {
    RunsAreFronts(responses, |responses|);
    assert Lengths(Fronts(RR, responses))[..|responses|] == Lengths(Fronts(RR, responses));
  }

  lemma {:induction false} FullOrEmpty(k: nat, responses: seq<seq<Server>>, cap: nat, lens: seq<nat>)
    requires lens == Lengths(responses) && cap == Cap(Sum(lens), k)
    requires forall i :: 0 <= i < |responses| ==> responses[i] != []
    ensures |responses| == 1 ==> cap <= lens[0] && FillsCap(k, responses)
    ensures |responses| != 1 ==>
      var runs := Sum(Lengths(Fronts(RR, responses)));
      runs == 0 || runs >= cap <==> FillsCap(k, responses) || Reached(RR, k, responses) == []
  {
    MergeAllLength(RR, Fronts(RR, responses));
    if |responses| == 1 {
      assert Sum(lens) == lens[0] + Sum(lens[1..]) == lens[0];
    }
  }

  /** The first draw of a pass is the first server of its response. */
  lemma {:induction false} FirstDrawn<S>(responses: seq<seq<S>>, picks: seq<nat>)
    requires Draws(Lengths(responses), Zeros(|responses|), picks) && picks != []
    ensures picks[0] < |responses| && responses[picks[0]] != []
    ensures Emit(responses, Zeros(|responses|), picks)[0] == responses[picks[0]][0]
  {
    if |picks| > 1 { FirstDrawn(responses, picks[..|picks| - 1]); }
  }

  // ---------------------------------------------------------------- the tree of agents

  /** What a tree of agents may answer when all of them run the default scheduler; every
      agent's rand() answers as it likes. */
  ghost predicate StdAnswer(k: nat, t: Tree<Server>, a: seq<Server>)
    decreases t, 1
  {
    match t
    case SeD(servers) => a == servers
    case Agent(children) =>
      exists answers, rand, passes ::
        StdAnswers(k, children, answers) && NeverUndefined(rand) && StdRun(rand, k, answers, passes, a)
  }

  ghost predicate StdAnswers(k: nat, ts: seq<Tree<Server>>, answers: seq<seq<Server>>)
    decreases ts, 0
  {
    if ts == [] then answers == []
    else answers != [] && StdAnswer(k, ts[0], answers[0]) && StdAnswers(k, ts[1..], answers[1..])
  }

  lemma KnownFromListed<S>(dom: S -> bool, lists: seq<seq<S>>, answers: seq<seq<S>>)
    requires Known(dom, lists) && forall x :: Listed(answers, x) ==> Listed(lists, x)
    ensures Known(dom, answers)
  {
    forall i, s | 0 <= i < |answers| && 0 <= s < |answers[i]| ensures dom(answers[i][s]) {
      assert Listed(answers, answers[i][s]);
      var j :| 0 <= j < |lists| && answers[i][s] in lists[j];
      var l :| 0 <= l < |lists[j]| && lists[j][l] == answers[i][s];
    }
  }

  lemma ListedAppend<S>(here: seq<seq<S>>, rest: seq<seq<S>>, x: S)
    ensures Listed(here + rest, x) <==> Listed(here, x) || Listed(rest, x)
  {
    if i :| 0 <= i < |here| && x in here[i] {
      assert (here + rest)[i] == here[i];
    } else if i :| 0 <= i < |rest| && x in rest[i] {
      assert (here + rest)[|here| + i] == rest[i];
    }
  }

  /** Whatever rand() answers: every place of an answer holds a server that some daemon of
      the tree listed, and there are min(listed, k) places at each agent. */
  lemma {:induction false} AnswersAreListed(k: nat, t: Tree<Server>, a: seq<Server>)
    requires KnownTree(RRValue, t) && StdAnswer(k, t, a)
    ensures forall x :: x in a ==> Listed(LeafLists(t), x)
    ensures |a| == if t.SeD? then |t.servers| else Cap(Places(k, t.children), k)
    decreases t, 1
  {
    match t
    case SeD(servers) =>
      assert LeafLists(t)[0] == servers;
    case Agent(children) =>
      var answers, rand, passes :|
        StdAnswers(k, children, answers) && NeverUndefined(rand) && StdRun(rand, k, answers, passes, a);
      ForestIsListed(k, children, answers);
      KnownFromListed(RRValue, ForestLists(children), answers);
      StdIsMerge(rand, k, answers, passes, a);
  }

  /** How many servers the children of an agent answer with. */
  function Places(k: nat, ts: seq<Tree<Server>>): nat
    decreases ts
  {
    if ts == [] then 0
    else
      var later := Places(k, ts[1..]);
      match ts[0]
      case SeD(servers) => |servers| + later
      case Agent(children) => Cap(Places(k, children), k) + later
  }

  lemma {:induction false} ForestIsListed(k: nat, ts: seq<Tree<Server>>, answers: seq<seq<Server>>)
    requires Known(RRValue, ForestLists(ts)) && StdAnswers(k, ts, answers)
    ensures forall x :: Listed(answers, x) ==> Listed(ForestLists(ts), x)
    ensures Sum(Lengths(answers)) == Places(k, ts) && |answers| == |ts|
    decreases ts, 0
  {
    if ts != [] {
      var here, rest := LeafLists(ts[0]), ForestLists(ts[1..]);
      KnownParts(RRValue, here, rest);
      AnswersAreListed(k, ts[0], answers[0]);
      ForestIsListed(k, ts[1..], answers[1..]);
      assert Lengths(answers)[1..] == Lengths(answers[1..]);
      forall x | Listed(answers, x) ensures Listed(ForestLists(ts), x) {
        assert answers == [answers[0]] + answers[1..];
        ListedAppend([answers[0]], answers[1..], x);
        ListedAppend(here, rest, x);
      }
    }
  }

  /** At every agent of the tree round robin fills the answer. */
  predicate Filled(k: nat, t: Tree<Server>)
    decreases t, 1
  {
    match t
    case SeD(servers) => true
    case Agent(children) => FilledForest(k, children) && FillsCap(k, Answers(RR, BLANK, k, children))
  }

  predicate FilledForest(k: nat, ts: seq<Tree<Server>>)
    decreases ts, 0
  {
    ts == [] || (Filled(k, ts[0]) && FilledForest(k, ts[1..]))
  }

  /** Then rand() has no say: the tree gives the one answer of round robin alone. */
  lemma {:induction false} FilledIsRoundRobin(k: nat, t: Tree<Server>, a: seq<Server>)
    requires KnownTree(RRValue, t) && Filled(k, t) && StdAnswer(k, t, a)
    ensures a == Answer(RR, BLANK, k, t)
    decreases t, 1
  {
    match t
    case SeD(servers) =>
    case Agent(children) =>
      var answers, rand, passes :|
        StdAnswers(k, children, answers) && NeverUndefined(rand) && StdRun(rand, k, answers, passes, a);
      FilledForestIsRoundRobin(k, children, answers);
      ForestIsListed(k, children, answers);
      KnownFromListed(RRValue, ForestLists(children), answers);
      StdIsMerge(rand, k, answers, passes, a);
  }

  lemma {:induction false} FilledForestIsRoundRobin(k: nat, ts: seq<Tree<Server>>, answers: seq<seq<Server>>)
    requires Known(RRValue, ForestLists(ts)) && FilledForest(k, ts) && StdAnswers(k, ts, answers)
    ensures answers == Answers(RR, BLANK, k, ts)
    decreases ts, 0
  {
    if ts != [] {
      KnownParts(RRValue, LeafLists(ts[0]), ForestLists(ts[1..]));
      FilledIsRoundRobin(k, ts[0], answers[0]);
      FilledForestIsRoundRobin(k, ts[1..], answers[1..]);
      assert answers == [answers[0]] + answers[1..];
    }
  }

  // ---------------------------------------------------------------- when the tree is right

  /** Round robin fills the answer of the agent, or finds nothing at all. */
  predicate SettledAgent(k: nat, lists: seq<seq<Server>>) {
    FillsCap(k, lists) || Reached(RR, k, lists) == []
  }

  /** It is so at every agent of the tree. */
  predicate Settled(k: nat, t: Tree<Server>)
    decreases t, 1
  {
    match t
    case SeD(servers) => true
    case Agent(children) => SettledForest(k, children) && SettledAgent(k, Answers(RR, BLANK, k, children))
  }

  predicate SettledForest(k: nat, ts: seq<Tree<Server>>)
    decreases ts, 0
  {
    ts == [] || (Settled(k, ts[0]) && SettledForest(k, ts[1..]))
  }

  lemma {:induction false} FilledIsSettled(k: nat, t: Tree<Server>)
    requires Filled(k, t)
    ensures Settled(k, t)
    decreases t, 1
  {
    match t
    case SeD(servers) =>
    case Agent(children) => FilledForestIsSettled(k, children);
  }

  lemma {:induction false} FilledForestIsSettled(k: nat, ts: seq<Tree<Server>>)
    requires FilledForest(k, ts)
    ensures SettledForest(k, ts)
    decreases ts, 0
  {
    if ts != [] {
      FilledIsSettled(k, ts[0]);
      FilledForestIsSettled(k, ts[1..]);
    }
  }

  /** When nothing in front is usable, neither is the first server of a pass. */
  lemma {:induction false} NothingUsable(responses: seq<seq<Server>>, picks: seq<nat>)
    requires Draws(Lengths(responses), Zeros(|responses|), picks)
    requires MergeAll(RR, Fronts(RR, responses)) == []
    ensures Front(RR, Emit(responses, Zeros(|responses|), picks)) == []
  {
    if picks != [] {
      FirstDrawn(responses, picks);
      MergeAllLength(RR, Fronts(RR, responses));
      EmptyFront(Fronts(RR, responses), picks[0]);
      assert Front(RR, responses[picks[0]]) == [];
    }
  }

  /** What rand() adds to a settled answer cannot be used. */
  lemma {:induction false} AgentSettles(rand: Compare, k: nat, responses: seq<seq<Server>>, passes: seq<seq<nat>>,
                                        out: seq<Server>)
    requires Known(RRValue, responses) && StdRun(rand, k, responses, passes, out) && NeverUndefined(rand)
    requires SettledAgent(k, responses)
    ensures Front(RR, out) == Front(RR, Aggregated(RR, BLANK, k, responses))
  {
    StdIsMerge(rand, k, responses, passes, out);
    if !FillsCap(k, responses) {
      RRLaws();
      AggregatedFront(RR, RRValue, BLANK, k, responses);
      NoBlanks(rand, k, responses, passes, out);
      NothingUsable(responses, passes[1]);
    }
  }

  lemma SameFronts(k: nat, xs: seq<seq<Server>>, ys: seq<seq<Server>>)
    requires Known(RRValue, xs) && Known(RRValue, ys)
    requires Lengths(xs) == Lengths(ys) && Fronts(RR, xs) == Fronts(RR, ys)
    ensures Front(RR, Aggregated(RR, BLANK, k, xs)) == Front(RR, Aggregated(RR, BLANK, k, ys))
    ensures SettledAgent(k, xs) <==> SettledAgent(k, ys)
  {
    RRLaws();
    AggregatedFront(RR, RRValue, BLANK, k, xs);
    AggregatedFront(RR, RRValue, BLANK, k, ys);
    assert |xs| == |Lengths(xs)| == |ys|;
  }

  /** Then rand() decides about unusable servers only. */
  lemma {:induction false} SettledFront(k: nat, t: Tree<Server>, a: seq<Server>)
    requires KnownTree(RRValue, t) && Settled(k, t) && StdAnswer(k, t, a)
    ensures Front(RR, a) == Front(RR, Answer(RR, BLANK, k, t)) && |a| == |Answer(RR, BLANK, k, t)|
    decreases t, 1
  {
    match t
    case SeD(servers) =>
    case Agent(children) =>
      var answers, rand, passes :|
        StdAnswers(k, children, answers) && NeverUndefined(rand) && StdRun(rand, k, answers, passes, a);
      SettledFronts(k, children, answers);
      SameFronts(k, answers, Answers(RR, BLANK, k, children));
      AgentSettles(rand, k, answers, passes, a);
      NoBlanks(rand, k, answers, passes, a);
  }

  lemma {:induction false} SettledFronts(k: nat, ts: seq<Tree<Server>>, answers: seq<seq<Server>>)
    requires Known(RRValue, ForestLists(ts)) && SettledForest(k, ts) && StdAnswers(k, ts, answers)
    ensures Known(RRValue, answers) && Known(RRValue, Answers(RR, BLANK, k, ts))
    ensures Lengths(answers) == Lengths(Answers(RR, BLANK, k, ts))
    ensures Fronts(RR, answers) == Fronts(RR, Answers(RR, BLANK, k, ts))
    decreases ts, 0
  {
    ForestIsListed(k, ts, answers);
    KnownFromListed(RRValue, ForestLists(ts), answers);
    RRLaws();
    TopKForest(RR, RRValue, BLANK, k, ts);
    if ts != [] {
      KnownParts(RRValue, LeafLists(ts[0]), ForestLists(ts[1..]));
      SettledFront(k, ts[0], answers[0]);
      SettledFronts(k, ts[1..], answers[1..]);
      SameHeadAndTail(answers, Answers(RR, BLANK, k, ts));
    }
  }

  lemma SameHeadAndTail(xs: seq<seq<Server>>, ys: seq<seq<Server>>)
    requires xs != [] && ys != [] && |xs[0]| == |ys[0]| && Front(RR, xs[0]) == Front(RR, ys[0])
    requires Lengths(xs[1..]) == Lengths(ys[1..]) && Fronts(RR, xs[1..]) == Fronts(RR, ys[1..])
    ensures Lengths(xs) == Lengths(ys) && Fronts(RR, xs) == Fronts(RR, ys)
  {
    HeadAndTail(xs);
    HeadAndTail(ys);
  }

  lemma HeadAndTail(xs: seq<seq<Server>>)
    requires xs != []
    ensures Lengths(xs) == [|xs[0]|] + Lengths(xs[1..])
    ensures Fronts(RR, xs) == [Front(RR, xs[0])] + Fronts(RR, xs[1..])
  {
  }

  /** The servers that can be used of an answer are the flat top k. */
  ghost predicate IsTopK(k: nat, t: Tree<Server>, a: seq<Server>) {
    Limit(k, Front(RR, a)) == Limit(k, MergeAll(RR, Fronts(RR, LeafLists(t))))
  }

  /** In a settled tree hierarchical top-k is flat top-k for StdGS too. */
  lemma {:induction false} DefaultTopK(k: nat, t: Tree<Server>, a: seq<Server>)
    requires KnownTree(RRValue, t) && Settled(k, t) && StdAnswer(k, t, a)
    ensures IsTopK(k, t, a)
  {
    SettledFront(k, t, a);
    RRLaws();
    TopK(RR, RRValue, BLANK, k, t);
  }

  /** Whatever rand() answers, every agent of the tree answers with its flat top k. */
  ghost predicate AlwaysTopK(k: nat, t: Tree<Server>)
    decreases t, 1
  {
    match t
    case SeD(servers) => true
    case Agent(children) => AllAlwaysTopK(k, children) && forall a :: StdAnswer(k, t, a) ==> IsTopK(k, t, a)
  }

  ghost predicate AllAlwaysTopK(k: nat, ts: seq<Tree<Server>>)
    decreases ts, 0
  {
    ts == [] || (AlwaysTopK(k, ts[0]) && AllAlwaysTopK(k, ts[1..]))
  }

  /** The condition is exact. */
  lemma {:induction false} SettledIsExact(k: nat, t: Tree<Server>)
    requires KnownTree(RRValue, t) && Proper(t)
    ensures AlwaysTopK(k, t) <==> Settled(k, t)
    decreases t, 1
  {
    match t
    case SeD(servers) =>
    case Agent(children) =>
      SettledForestIsExact(k, children);
      if Settled(k, t) {
        forall a | StdAnswer(k, t, a) ensures IsTopK(k, t, a) {
          DefaultTopK(k, t, a);
        }
      } else if SettledForest(k, children) {
        var a := WrongAnswer(k, children);
        assert StdAnswer(k, t, a) && !IsTopK(k, t, a);
      }
  }

  lemma {:induction false} SettledForestIsExact(k: nat, ts: seq<Tree<Server>>)
    requires Known(RRValue, ForestLists(ts)) && ProperForest(ts)
    ensures AllAlwaysTopK(k, ts) <==> SettledForest(k, ts)
    decreases ts, 0
  {
    if ts != [] {
      KnownParts(RRValue, LeafLists(ts[0]), ForestLists(ts[1..]));
      SettledIsExact(k, ts[0]);
      SettledForestIsExact(k, ts[1..]);
    }
  }

  /** An agent that is not settled, above children that are, can answer wrongly. */
  lemma WrongAnswer(k: nat, children: seq<Tree<Server>>) returns (a: seq<Server>)
    requires Known(RRValue, ForestLists(children)) && ProperForest(children)
    requires SettledForest(k, children) && !SettledAgent(k, Answers(RR, BLANK, k, children))
    ensures StdAnswer(k, Agent(children), a) && !IsTopK(k, Agent(children), a)
  {
    var answers := SomeAnswers(k, children);
    SettledFronts(k, children, answers);
    SameFronts(k, answers, Answers(RR, BLANK, k, children));
    ForestAnswersAreProper(k, children, answers);
    var rand, passes;
    rand, passes, a := WrongOutcome(k, answers);
    RRLaws();
    TopKForest(RR, RRValue, BLANK, k, children);
  }

  /** rand() prefers a response that has a usable server in front, which is drawn again. */
  lemma WrongOutcome(k: nat, responses: seq<seq<Server>>)
    returns (rand: Compare, passes: seq<seq<nat>>, out: seq<Server>)
    requires Known(RRValue, responses) && (forall i :: 0 <= i < |responses| ==> responses[i] != [])
    requires !SettledAgent(k, responses)
    ensures NeverUndefined(rand) && StdRun(rand, k, responses, passes, out)
    ensures Limit(k, Front(RR, out)) != Limit(k, MergeAll(RR, Fronts(RR, responses)))
  {
    var fronts := Fronts(RR, responses);
    var merged := MergeAll(RR, fronts);
    MergeAllLength(RR, fronts);
    assert Reached(RR, k, responses) == merged;
    var r := MergeAllHead(RR, fronts);
    rand := Prefer(r);
    PreferLawful(r);
    passes, out := Outcome(rand, k, responses);
    StdPrefix(rand, k, responses, passes, out);
    NoBlanks(rand, k, responses, passes, out);
    PreferredFirst(Lengths(responses), r, |out| - |merged|);
    FirstDrawn(responses, passes[1]);
    var extra := Emit(responses, Zeros(|responses|), passes[1]);
    assert Front(RR, responses[r]) != [] && extra[0] == responses[r][0];
    FrontsGood(RR, RRValue, responses);
    MergeAllGood(RR, RRValue, fronts);
    FrontAppend(RR, RRValue, merged, extra);
    TooLong(k, merged, Front(RR, out), |out|);
  }

  lemma TooLong(k: nat, merged: seq<Server>, front: seq<Server>, cap: nat)
    requires |merged| < |front| <= cap && (k > 0 ==> cap <= k)
    ensures Limit(k, front) != Limit(k, merged)
  {
    assert Limit(k, front) == front && Limit(k, merged) == merged;
  }

  lemma {:induction false} FrontAppend<S>(cs: ServerCompare<S>, dom: S -> bool, xs: seq<S>, ys: seq<S>)
    requires Good(cs, dom, xs)
    ensures Front(cs, xs + ys) == xs + Front(cs, ys)
  {
    if xs == [] {
      assert xs + ys == ys;
    } else {
      assert (xs + ys)[1..] == xs[1..] + ys;
      FrontAppend(cs, dom, xs[1..], ys);
    }
  }

  // ---------------------------------------------------------------- outcomes exist

  /** What the passes draw for a lawful rand(). */
  lemma Outcome(rand: Compare, k: nat, responses: seq<seq<Server>>)
    returns (passes: seq<seq<nat>>, out: seq<Server>)
    requires Known(RRValue, responses) && Lawful(rand) && NeverUndefined(rand)
    ensures StdRun(rand, k, responses, passes, out)
  {
    var lens, cap := Lengths(responses), Cap(Sum(Lengths(responses)), k);
    var p1 := FirstPass(responses, cap);
    var p2 := LawfulPass(rand, lens, cap - |p1|);
    passes := [p1, p2];
    out := Emit(responses, Zeros(|lens|), p1) + Emit(responses, Zeros(|lens|), p2) + Blanks(BLANK, cap - |p1| - |p2|);
  }

  lemma LawfulPass(rand: Compare, lens: seq<nat>, room: nat) returns (picks: seq<nat>)
    requires Lawful(rand) && NeverUndefined(rand)
    ensures PassResult(rand, lens, Zeros(|lens|), room, picks)
  {
    picks := NaivePicks(rand, lens, Zeros(|lens|), room);
    NaivePicksResult(rand, lens, Zeros(|lens|), [], Zeros(|lens|), room, picks, picks);
  }

  lemma FirstPass(responses: seq<seq<Server>>, cap: nat) returns (picks: seq<nat>)
    requires Known(RRValue, responses) && cap <= Sum(Lengths(responses))
    ensures PassResult(RRPositions(responses), Lengths(responses), Zeros(|responses|), cap, picks)
  {
    var cmp, lens, z := OnPositions(RR, responses), Lengths(responses), Zeros(|responses|);
    RRPositionsAgree(responses);
    if |responses| == 1 {
      picks := seq(cap, i => 0);
      assert Sum(lens) == lens[0] + Sum(lens[1..]) == lens[0];
      FromOne(lens, cap, picks);
    } else {
      picks := NaivePicks(cmp, lens, z, cap);
      RRLaws();
      PassIsMerge(RR, RRValue, responses, cmp, lens, z, cap, picks);
      assert cmp(0, Null, Null).Undefined?;
    }
    SamePass(cmp, RRPositions(responses), lens, cap, picks);
  }

  lemma {:induction false} FromOne(lens: seq<nat>, n: nat, picks: seq<nat>)
    requires |lens| == 1 && n <= lens[0] && |picks| == n && forall i :: 0 <= i < n ==> picks[i] == 0
    ensures Draws(lens, Zeros(1), picks) && HeadsAfter(Zeros(1), picks) == [n]
  {
    if n > 0 { FromOne(lens, n - 1, picks[..n - 1]); }
  }

  lemma SomeAnswer(k: nat, t: Tree<Server>) returns (a: seq<Server>)
    requires KnownTree(RRValue, t)
    ensures StdAnswer(k, t, a)
    decreases t, 1
  {
    match t
    case SeD(servers) =>
      a := servers;
    case Agent(children) =>
      var answers := SomeAnswers(k, children);
      ForestIsListed(k, children, answers);
      KnownFromListed(RRValue, ForestLists(children), answers);
      PreferLawful(0);
      var passes;
      passes, a := Outcome(Prefer(0), k, answers);
  }

  lemma SomeAnswers(k: nat, ts: seq<Tree<Server>>) returns (answers: seq<seq<Server>>)
    requires Known(RRValue, ForestLists(ts))
    ensures StdAnswers(k, ts, answers)
    decreases ts, 0
  {
    answers := [];
    if ts != [] {
      KnownParts(RRValue, LeafLists(ts[0]), ForestLists(ts[1..]));
      var a := SomeAnswer(k, ts[0]);
      var later := SomeAnswers(k, ts[1..]);
      answers := [a] + later;
    }
  }

  // ---------------------------------------------------------------- what the client sees

  /** `submit_local` of the master agent, which cuts the final answer once more. */
  ghost predicate DefaultSubmit(k: nat, children: seq<Tree<Server>>, got: seq<Server>) {
    exists a :: StdAnswer(k, Agent(children), a) && got == Take(k, a)
  }

  lemma {:induction false} DefaultSubmitIsFlat(k: nat, children: seq<Tree<Server>>, got: seq<Server>)
    requires Known(RRValue, ForestLists(children)) && Settled(k, Agent(children)) && DefaultSubmit(k, children, got)
    ensures Front(RR, got) == Take(k, MergeAll(RR, Fronts(RR, ForestLists(children))))
    ensures Filled(k, Agent(children)) ==> got == Submit(RR, BLANK, k, children)
  {
    var t := Agent(children);
    var a :| StdAnswer(k, t, a) && got == Take(k, a);
    SettledFront(k, t, a);
    if Filled(k, t) { FilledIsRoundRobin(k, t, a); }
    RRLaws();
    SubmitIsFlat(RR, RRValue, BLANK, k, children);
    FrontTake(RR, k, a);
    FrontTake(RR, k, Answer(RR, BLANK, k, t));
  }

  // ---------------------------------------------------------------- all listed servers usable

  lemma UsableFronts<S>(cs: ServerCompare<S>, dom: S -> bool, lists: seq<seq<S>>)
    requires AllGood(cs, dom, lists)
    ensures Fronts(cs, lists) == lists
  {
    forall i | 0 <= i < |lists| ensures Front(cs, lists[i]) == lists[i] {
      FrontGood(cs, dom, lists[i]);
    }
  }

  lemma UsableReached(k: nat, lists: seq<seq<Server>>)
    requires AllGood(RR, RRValue, lists)
    ensures FillsCap(k, lists)
    ensures Good(RR, RRValue, Aggregated(RR, BLANK, k, lists))
  {
    UsableFronts(RR, RRValue, lists);
    ReachedLength(k, lists);
    MergeAllGood(RR, RRValue, lists);
    assert |lists| == 1 ==> Good(RR, RRValue, lists[0]);
  }

  /** When every listed server knows the time of its last job, round robin fills every answer. */
  lemma {:induction false} UsableFills(k: nat, t: Tree<Server>)
    requires AllGood(RR, RRValue, LeafLists(t))
    ensures Filled(k, t) && Good(RR, RRValue, Answer(RR, BLANK, k, t))
    decreases t, 1
  {
    match t
    case SeD(servers) =>
      assert LeafLists(t)[0] == servers;
    case Agent(children) =>
      UsableForest(k, children);
      UsableReached(k, Answers(RR, BLANK, k, children));
  }

  lemma {:induction false} UsableForest(k: nat, ts: seq<Tree<Server>>)
    requires AllGood(RR, RRValue, ForestLists(ts))
    ensures FilledForest(k, ts) && AllGood(RR, RRValue, Answers(RR, BLANK, k, ts))
    decreases ts, 0
  {
    if ts != [] {
      var here, rest := LeafLists(ts[0]), ForestLists(ts[1..]);
      assert forall i :: 0 <= i < |here| ==> (here + rest)[i] == here[i];
      assert forall i :: 0 <= i < |rest| ==> (here + rest)[|here| + i] == rest[i];
      UsableFills(k, ts[0]);
      UsableForest(k, ts[1..]);
    }
  }

  lemma GoodIsKnown<S>(cs: ServerCompare<S>, dom: S -> bool, lists: seq<seq<S>>)
    requires AllGood(cs, dom, lists)
    ensures Known(dom, lists)
  {
    forall i, s | 0 <= i < |lists| && 0 <= s < |lists[i]| ensures dom(lists[i][s]) {
      assert Good(cs, dom, lists[i]);
    }
  }

  /** What a client of the default scheduler receives when every listed server knows the time
      of its last job and every daemon lists its servers in order: whatever the shape of the
      tree and whatever rand() answers anywhere, the k servers that have waited longest of all
      servers in the tree, in order, ties in the order of the slots. */
  lemma DefaultClientGetsBest(k: nat, children: seq<Tree<Server>>, got: seq<Server>)
    returns (rest: seq<Server>)
    requires DefaultSubmit(k, children, got)
    requires forall i :: 0 <= i < |ForestLists(children)| ==> LongestFirst(ForestLists(children)[i])
    ensures got == Take(k, MergeAll(RR, ForestLists(children)))
    ensures LongestFirst(got) && (|got| == k || rest == [])
    ensures multiset(got) + multiset(rest) == AllServers(ForestLists(children))
    ensures forall x, y :: x in got && y in rest ==> Waited(x) && Waited(y) && x.estim[4] >= y.estim[4]
  {
    var lists := ForestLists(children);
    LongestFirstLists(lists);
    GoodIsKnown(RR, RRValue, lists);
    UsableFronts(RR, RRValue, lists);
    UsableFills(k, Agent(children));
    FilledIsSettled(k, Agent(children));
    DefaultSubmitIsFlat(k, children, got);
    UsableGot(k, children, got);
    RRLaws();
    RRBlank();
    rest := ClientGetsBest(RR, RRValue, BLANK, k, children);
    AllWaited(lists, got, rest);
    InTimes(got, rest);
  }

  /** All servers know the time since their last job, and it does not increase. */
  predicate LongestFirst(xs: seq<Server>) {
    && (forall i :: 0 <= i < |xs| ==> Waited(xs[i]))
    && (forall i, j :: 0 <= i < j < |xs| ==> xs[i].estim[4] >= xs[j].estim[4])
  }

  lemma LongestFirstLists(lists: seq<seq<Server>>)
    requires forall i :: 0 <= i < |lists| ==> LongestFirst(lists[i])
    ensures AllGood(RR, RRValue, lists) && forall i :: 0 <= i < |lists| ==> Ordered(RR, lists[i])
  {
    forall i | 0 <= i < |lists| ensures Good(RR, RRValue, lists[i]) && Ordered(RR, lists[i]) {
      assert LongestFirst(lists[i]);
      forall a, b ensures Waited(a) && Waited(b) && a.estim[4] >= b.estim[4] ==> Keeps(RR, a, b) && Usable(RR, a) {
        RRMeaning(a, b);
        RRMeaning(a, a);
      }
    }
  }

  lemma AllWaited(lists: seq<seq<Server>>, got: seq<Server>, rest: seq<Server>)
    requires forall i :: 0 <= i < |lists| ==> LongestFirst(lists[i])
    requires multiset(got) + multiset(rest) == AllServers(lists)
    ensures forall x :: x in got || x in rest ==> Waited(x)
  {
    forall x | x in got || x in rest ensures Waited(x) {
      assert x in multiset(got) + multiset(rest);
      ServerListed(lists, x);
    }
  }

  lemma {:induction false} ServerListed(lists: seq<seq<Server>>, x: Server)
    requires x in AllServers(lists) && forall i :: 0 <= i < |lists| ==> LongestFirst(lists[i])
    ensures Waited(x)
  {
    if x in multiset(lists[0]) {
      assert LongestFirst(lists[0]) && x in lists[0];
    } else {
      ServerListed(lists[1..], x);
    }
  }

  lemma InTimes(got: seq<Server>, rest: seq<Server>)
    requires (forall x :: x in got || x in rest ==> Waited(x)) && Ordered(RR, got)
    requires forall x, y :: x in got && y in rest ==> Keeps(RR, x, y)
    ensures LongestFirst(got)
    ensures forall x, y :: x in got && y in rest ==> Waited(x) && Waited(y) && x.estim[4] >= y.estim[4]
  {
    forall x, y | Waited(x) && Waited(y) && Keeps(RR, x, y) ensures x.estim[4] >= y.estim[4] {
      RRMeaning(x, y);
    }
  }

  lemma RRBlank()
    ensures RRValue(BLANK) && RR(BLANK, BLANK).Undefined?
  {
  }

  lemma {:induction false} UsableGot(k: nat, children: seq<Tree<Server>>, got: seq<Server>)
    requires AllGood(RR, RRValue, ForestLists(children)) && got == Submit(RR, BLANK, k, children)
    ensures Front(RR, got) == got
  {
    UsableFills(k, Agent(children));
    assert Good(RR, RRValue, got);
    FrontGood(RR, RRValue, got);
  }

  // ---------------------------------------------------------------- the first server

  lemma {:induction false} AnswersAreProper(k: nat, t: Tree<Server>, a: seq<Server>)
    requires KnownTree(RRValue, t) && Proper(t) && StdAnswer(k, t, a)
    ensures a != []
    decreases t, 1
  {
    AnswersAreListed(k, t, a);
    if t.Agent? { PlacesExist(k, t.children); }
  }

  lemma {:induction false} PlacesExist(k: nat, ts: seq<Tree<Server>>)
    requires ts != [] && ProperForest(ts)
    ensures Places(k, ts) > 0
    decreases ts
  {
    match ts[0]
    case SeD(servers) =>
    case Agent(children) => PlacesExist(k, children);
  }

  lemma {:induction false} ForestAnswersAreProper(k: nat, ts: seq<Tree<Server>>, answers: seq<seq<Server>>)
    requires Known(RRValue, ForestLists(ts)) && ProperForest(ts) && StdAnswers(k, ts, answers)
    ensures |answers| == |ts| && forall i :: 0 <= i < |answers| ==> answers[i] != []
    decreases ts
  {
    if ts != [] {
      KnownParts(RRValue, LeafLists(ts[0]), ForestLists(ts[1..]));
      AnswersAreProper(k, ts[0], answers[0]);
      ForestAnswersAreProper(k, ts[1..], answers[1..]);
      assert answers == [answers[0]] + answers[1..];
    }
  }

  /** One agent's first usable server is the best one in front of its responses; and there is
      one as soon as any response has one in front. */
  lemma {:induction false} FirstReached(rand: Compare, k: nat, responses: seq<seq<Server>>, passes: seq<seq<nat>>,
                                        out: seq<Server>)
    requires Known(RRValue, responses) && StdRun(rand, k, responses, passes, out) && NeverUndefined(rand)
    requires responses != [] && forall i :: 0 <= i < |responses| ==> responses[i] != []
    ensures Take(1, Front(RR, out)) == Take(1, MergeAll(RR, Fronts(RR, responses)))
  {
    var merged := MergeAll(RR, Fronts(RR, responses));
    NoBlanks(rand, k, responses, passes, out);
    NonEmptySum(responses, k);
    if |responses| == 1 {
      StdIsMerge(rand, k, responses, passes, out);
      OnlyFront(responses, |out|);
    } else if merged != [] {
      FrontsGood(RR, RRValue, responses);
      MergeAllGood(RR, RRValue, Fronts(RR, responses));
      assert out[0] == merged[0] && Usable(RR, merged[0]);
    } else {
      NothingUsable(responses, passes[1]);
    }
  }

  lemma OnlyFront(responses: seq<seq<Server>>, n: nat)
    requires |responses| == 1 && n > 0
    ensures Take(1, Front(RR, Take(n, responses[0]))) == Take(1, MergeAll(RR, Fronts(RR, responses)))
  {
    assert Fronts(RR, responses)[1..] == [];
    FrontTake(RR, n, responses[0]);
  }

  lemma EmptyFront<S>(lists: seq<seq<S>>, r: nat)
    requires Sum(Lengths(lists)) == 0 && r < |lists|
    ensures lists[r] == []
  {
    assert Lengths(lists)[1..] == Lengths(lists[1..]);
    if r > 0 { EmptyFront(lists[1..], r - 1); }
  }

  /** For every tree and every outcome of rand(), with no demand on the servers: the first
      usable server of an answer is the best of all that the daemons of the tree can offer. */
  lemma {:induction false} BestServerFirst(k: nat, t: Tree<Server>, a: seq<Server>)
    requires KnownTree(RRValue, t) && Proper(t) && StdAnswer(k, t, a)
    ensures Take(1, Front(RR, a)) == Take(1, MergeAll(RR, Fronts(RR, LeafLists(t))))
    decreases t, 1
  {
    match t
    case SeD(servers) =>
      assert LeafLists(t)[0] == servers && Fronts(RR, LeafLists(t))[1..] == [];
    case Agent(children) =>
      var answers, rand, passes :|
        StdAnswers(k, children, answers) && NeverUndefined(rand) && StdRun(rand, k, answers, passes, a);
      ForestIsListed(k, children, answers);
      KnownFromListed(RRValue, ForestLists(children), answers);
      ForestAnswersAreProper(k, children, answers);
      FirstReached(rand, k, answers, passes, a);
      BestOfForestFirst(k, children, answers);
  }

  lemma {:induction false} BestOfForestFirst(k: nat, ts: seq<Tree<Server>>, answers: seq<seq<Server>>)
    requires Known(RRValue, ForestLists(ts)) && ProperForest(ts) && StdAnswers(k, ts, answers)
    ensures Take(1, MergeAll(RR, Fronts(RR, answers))) == Take(1, MergeAll(RR, Fronts(RR, ForestLists(ts))))
    decreases ts, 0
  {
    if ts != [] {
      var here, rest := LeafLists(ts[0]), ForestLists(ts[1..]);
      KnownParts(RRValue, here, rest);
      BestServerFirst(k, ts[0], answers[0]);
      BestOfForestFirst(k, ts[1..], answers[1..]);
      RRLaws();
      OneMoreAnswer(RR, RRValue, 1, answers, answers[1..], here, rest);
    }
  }

  // ---------------------------------------------------------------- asking the tree

  /** A request goes down the tree and the answers come back up: one of the answers above. */
  method Ask(rand: Compare, k: nat, t: Tree<Server>) returns (a: seq<Server>)
    requires NeverUndefined(rand) && Proper(t) && KnownTree(RRValue, t)
    ensures StdAnswer(k, t, a)
    decreases t, 1
  {
    match t
    case SeD(servers) =>
      a := servers;
    case Agent(children) =>
      ghost var passes;
      var answers := AskChildren(rand, k, children);
      ForestIsListed(k, children, answers);
      KnownFromListed(RRValue, ForestLists(children), answers);
      ForestAnswersAreProper(k, children, answers);
      var aggr: array<Server>;
      aggr, passes := AggregateDefault(rand, k, answers);
      a := aggr[..];
  }

  method AskChildren(rand: Compare, k: nat, ts: seq<Tree<Server>>) returns (answers: seq<seq<Server>>)
    requires NeverUndefined(rand) && ProperForest(ts) && Known(RRValue, ForestLists(ts))
    ensures StdAnswers(k, ts, answers)
    decreases ts, 0
  {
    answers := [];
    if ts != [] {
      KnownParts(RRValue, LeafLists(ts[0]), ForestLists(ts[1..]));
      var a := Ask(rand, k, ts[0]);
      var later := AskChildren(rand, k, ts[1..]);
      answers := [a] + later;
    }
  }

  /** A server that solved a second ago, and one that reports no such time. */
  const KNOWN := Server("known", map[EST_TIMESINCELASTSOLVE := 1.0])
  const UNKNOWN := Server("unknown", map[])

  /** A client asks for two servers of two. When rand() prefers the first child, it gets that
      one's server twice and the other one not at all. */
  method RepeatInstance() returns (got: seq<Server>)
    ensures DefaultSubmit(2, [SeD([KNOWN]), SeD([UNKNOWN])], got) && got == [KNOWN, KNOWN]
    ensures Take(2, MergeAll(RR, Fronts(RR, ForestLists([SeD([KNOWN]), SeD([UNKNOWN])])))) == [KNOWN]
  {
    ghost var passes;
    var aggr: array<Server>;
    var children, rand := [SeD([KNOWN]), SeD([UNKNOWN])], Prefer(0);
    PreferLawful(0);
    TwoDaemons(children, SeD([KNOWN]), SeD([UNKNOWN]));
    var answers := AskChildren(rand, 2, children);
    aggr, passes := AggregateDefault(rand, 2, answers);
    RepeatOutcome(passes, aggr[..]);
    assert StdAnswer(2, Agent(children), aggr[..]);
    got := Take(2, aggr[..]);
    TwoFronts();
  }

  lemma {:induction false} TwoDaemons(ts: seq<Tree<Server>>, t: Tree<Server>, u: Tree<Server>)
    requires ts == [t, u] && t.SeD? && u.SeD? && t.servers != [] && u.servers != []
    ensures ForestLists(ts) == [t.servers, u.servers] && ProperForest(ts)
    ensures forall answers :: StdAnswers(2, ts, answers) ==> answers == [t.servers, u.servers]
  {
    assert ts[1..] == [u] && [u][1..] == [];
    assert ForestLists([u]) == [u.servers] + ForestLists([]);
    assert Proper(t) && Proper(u) && ProperForest([u][1..]) && ProperForest(ts[1..]);
    forall answers | StdAnswers(2, ts, answers) ensures answers == [t.servers, u.servers] {
      assert StdAnswer(2, t, answers[0]) && StdAnswers(2, [u], answers[1..]);
      OneDaemon(u, answers[1..]);
      assert answers == [answers[0]] + answers[1..];
    }
  }

  lemma {:induction false} OneDaemon(u: Tree<Server>, answers: seq<seq<Server>>)
    requires u.SeD? && StdAnswers(2, [u], answers)
    ensures answers == [u.servers]
  {
    assert [u][1..] == [] && StdAnswers(2, [], answers[1..]);
    assert answers == [answers[0]] + answers[1..];
  }

  lemma TwoFronts()
    ensures Fronts(RR, [[KNOWN], [UNKNOWN]]) == [[KNOWN], []]
    ensures MergeAll(RR, [[KNOWN], []]) == [KNOWN]
  {
    assert Front(RR, [KNOWN]) == [KNOWN] by {
      assert !RR(KNOWN, KNOWN).Undefined? && [KNOWN][1..] == [];
    }
    assert Front(RR, [UNKNOWN]) == [] by {
      assert RR(UNKNOWN, UNKNOWN).Undefined?;
    }
    assert [[KNOWN], []][1..] == [[]] && MergeAll(RR, [[]]) == [];
  }

  lemma RepeatOutcome(passes: seq<seq<nat>>, out: seq<Server>)
    requires StdRun(Prefer(0), 2, [[KNOWN], [UNKNOWN]], passes, out)
    ensures out == [KNOWN, KNOWN]
  {
    var responses, lens := [[KNOWN], [UNKNOWN]], [1, 1];
    assert Lengths(responses) == lens && Sum(lens) == 1 + Sum([1]) == 2 by {
      assert lens[1..] == [1] && [1][1..] == [];
    }
    StdPrefix(Prefer(0), 2, responses, passes, out);
    TwoFronts();
    assert Reached(RR, 2, responses) == [KNOWN];
    PreferLawful(0);
    PreferredFirst(lens, 0, 1);
    assert passes[1] == [0];
    FirstDrawn(responses, passes[1]);
  }
}
