/** `Scheduler::aggregate` of src/agent/Schedulers.cc: a k-way merge through a tournament
    tree kept in an array of levels, where only the path above the replaced leaf is
    compared again after each emission. */
module Tournament {
  import opened Common
  import opened Selection

  // ---------------------------------------------------------------- shape of the tree

  /** The height of the tree: the least power of two that holds all leaves. */
  method TreeHeight(nbResponses: nat) returns (pow: nat)
    ensures nbResponses <= Pow2(pow)
    ensures pow > 0 ==> Pow2(pow - 1) < nbResponses
  {
    pow := 0;
    var nbLeaves, powerOfTwo := nbResponses, true;
    ghost var rest := 0; // nbResponses == nbLeaves * Pow2(pow) + rest
    while nbLeaves > 1
      invariant 0 <= rest < Pow2(pow) && nbResponses == nbLeaves * Pow2(pow) + rest
      invariant powerOfTwo <==> rest == 0
      invariant if nbResponses == 0 then pow == 0 else nbLeaves >= 1
    {
      ghost var bit := nbLeaves % 2;
      if nbLeaves % 2 == 1 {
        powerOfTwo := false;
      }
      HalfStep(nbLeaves, Pow2(pow), rest);
      rest := rest + bit * Pow2(pow);
      nbLeaves := nbLeaves / 2;
      pow := pow + 1;
    }
    assert nbLeaves == 0 || nbLeaves == 1;
    assert nbLeaves * Pow2(pow) == if nbLeaves == 0 then 0 else Pow2(pow);
    if !powerOfTwo {
      pow := pow + 1;
    }
  }

  lemma HalfStep(n: nat, p: nat, rest: nat)
    requires rest < p
    ensures n * p + rest == (n / 2) * (2 * p) + (rest + (n % 2) * p)
    ensures rest + (n % 2) * p < 2 * p
    ensures n % 2 == 1 ==> rest + (n % 2) * p > 0
    ensures n % 2 == 0 ==> rest + (n % 2) * p == rest
  {
    var h := n / 2;
    if n % 2 == 0 {
      assert n == 2 * h;
      assert (2 * h) * p == h * (2 * p);
    } else {
      assert n == 2 * h + 1;
      assert (2 * h + 1) * p == h * (2 * p) + p;
    }
  }

  /** First leaf below node j of level i; the last one precedes First(pow, i, j + 1). */
  ghost function First(pow: nat, i: nat, j: nat): nat
    requires i <= pow
    decreases pow - i
  {
    if i == pow then j else First(pow, i + 1, 2 * j)
  }

  lemma {:induction false} FirstOrdered(pow: nat, i: nat, j: nat, k: nat)
    requires i <= pow && j <= k
    ensures First(pow, i, j) <= First(pow, i, k)
    decreases pow - i
  {
    if i < pow { FirstOrdered(pow, i + 1, 2 * j, 2 * k); }
  }

  lemma {:induction false} FirstAtEnd(pow: nat, i: nat)
    requires i <= pow
    ensures First(pow, i, 0) == 0 && First(pow, i, Pow2(i)) == Pow2(pow)
    decreases pow - i
  {
    if i < pow { FirstAtEnd(pow, i + 1); }
  }

  ghost predicate Shaped(levels: array2<Node>, pow: nat) {
    levels.Length0 == pow + 1 && levels.Length1 == Pow2(pow)
  }

  /** Node j of level i was promoted from its two children, at some call of compare. */
  ghost predicate NodeOk(cmp: Compare, levels: array2<Node>, pow: nat, i: nat, j: nat)
    requires Shaped(levels, pow)
    reads levels
  {
    i < pow && j < Pow2(i) ==>
      2 * j + 1 < Pow2(i + 1) && Pow2(i + 1) <= Pow2(pow) && Pow2(i) <= Pow2(pow) &&
      Promoted(cmp, levels[i + 1, 2 * j], levels[i + 1, 2 * j + 1], levels[i, j])
  }

  ghost predicate Promoted(cmp: Compare, fst: Node, snd: Node, parent: Node) {
    exists call :: parent == Promote(cmp, call, fst, snd)
  }

  /** All inner nodes from level i on are up to date. */
  ghost predicate UpToDate(cmp: Compare, levels: array2<Node>, pow: nat, i: nat)
    requires Shaped(levels, pow)
    reads levels
  {
    forall l: nat, j: nat :: i <= l ==> NodeOk(cmp, levels, pow, l, j)
  }

  /** The k-th ancestor of node c: the one whose comparison is stale. */
  ghost function Ancestor(c: nat, k: nat): nat {
    if k == 0 then c else Ancestor(c / 2, k - 1)
  }

  /** All inner nodes are up to date except the ancestors of node c of level i. */
  ghost predicate StaleAbove(cmp: Compare, levels: array2<Node>, pow: nat, i: nat, c: nat)
    requires Shaped(levels, pow)
    reads levels
  {
    forall l: nat, j: nat :: (l < i && j == Ancestor(c, i - l)) || NodeOk(cmp, levels, pow, l, j)
  }

  ghost function Row(levels: array2<Node>, pow: nat): (row: seq<Node>)
    requires Shaped(levels, pow)
    reads levels
    ensures |row| == Pow2(pow) && forall k :: 0 <= k < |row| ==> row[k] == levels[pow, k]
  {
    seq(Pow2(pow), k requires 0 <= k < Pow2(pow) reads levels => levels[pow, k])
  }

  // ---------------------------------------------------------------- what the tree shows

  /** Every node shows the leftmost best processable leaf below it. */
  lemma NodeShowsBest(cmp: Compare, levels: array2<Node>, pow: nat, i: nat, j: nat)
    requires Shaped(levels, pow) && UpToDate(cmp, levels, pow, 0)
    requires Lawful(cmp) && LeafRow(Row(levels, pow))
    requires i <= pow && j < Pow2(i)
    ensures Pow2(i) <= Pow2(pow) && First(pow, i, j) <= First(pow, i, j + 1) <= Pow2(pow)
    ensures levels[i, j].At? ==> First(pow, i, j) <= levels[i, j].resp < First(pow, i, j + 1)
    ensures IsBest(cmp, Row(levels, pow), First(pow, i, j), First(pow, i, j + 1), Visible(cmp, levels[i, j]))
    ensures i < pow ==> Visible(cmp, levels[i, j]) == levels[i, j]
    decreases pow - i
  {
    Pow2Monotone(i, pow);
    FirstAtEnd(pow, i);
    FirstOrdered(pow, i, j, j + 1);
    FirstOrdered(pow, i, j + 1, Pow2(i));
    var row := Row(levels, pow);
    if i == pow {
      assert row[j] == levels[pow, j];
    } else {
      assert NodeOk(cmp, levels, pow, i, j);
      NodeShowsBest(cmp, levels, pow, i + 1, 2 * j);
      NodeShowsBest(cmp, levels, pow, i + 1, 2 * j + 1);
      var x, y := levels[i + 1, 2 * j], levels[i + 1, 2 * j + 1];
      var call :| levels[i, j] == Promote(cmp, call, x, y);
      assert First(pow, i, j + 1) == First(pow, i + 1, 2 * j + 2);
      BestOfTwo(cmp, row, First(pow, i, j), First(pow, i + 1, 2 * j + 1), First(pow, i, j + 1), call, x, y);
    }
  }

  /** With two or more leaves the root is the naive selection among all of them. */
  lemma {:induction false} RootIsNaiveSelect(cmp: Compare, levels: array2<Node>, pow: nat, lens: seq<nat>,
                                             heads: seq<nat>)
    requires Shaped(levels, pow) && UpToDate(cmp, levels, pow, 0) && pow > 0
    requires Lawful(cmp) && |heads| == |lens| <= Pow2(pow)
    requires LeavesShow(levels, pow, lens, heads)
    ensures levels[0, 0] == NaiveSelect(cmp, Leaves(lens, heads))
  {
    var row, leaves := Row(levels, pow), Leaves(lens, heads);
    assert forall k :: 0 <= k < |leaves| ==> row[k] == leaves[k];
    NodeShowsBest(cmp, levels, pow, 0, 0);
    FirstAtEnd(pow, 0);
    NaiveSelectIsBest(cmp, leaves);
    assert IsBest(cmp, row, 0, Pow2(pow), NaiveSelect(cmp, leaves));
    BestIsUnique(cmp, row, 0, Pow2(pow), levels[0, 0], NaiveSelect(cmp, leaves));
  }

  /** The leaf row holds the heads, then null nodes. */
  ghost predicate LeavesShow(levels: array2<Node>, pow: nat, lens: seq<nat>, heads: seq<nat>)
    requires Shaped(levels, pow) && |heads| == |lens| <= Pow2(pow)
    reads levels
  {
    && (forall k :: 0 <= k < |lens| ==> levels[pow, k] == if heads[k] < lens[k] then At(k, heads[k]) else Null)
    && (forall k :: |lens| <= k < Pow2(pow) ==> levels[pow, k] == Null)
  }

  /** Whatever compare says, a node is null or the current leaf of its response. */
  lemma {:induction false} NodeIsLeaf(cmp: Compare, levels: array2<Node>, pow: nat, i: nat, j: nat)
    requires Shaped(levels, pow) && UpToDate(cmp, levels, pow, 0) && LeafRow(Row(levels, pow))
    requires i <= pow && j < Pow2(i)
    ensures Pow2(i) <= Pow2(pow)
    ensures levels[i, j].At? ==> levels[i, j].resp < Pow2(pow) && levels[pow, levels[i, j].resp] == levels[i, j]
    decreases pow - i
  {
    Pow2Monotone(i, pow);
    if i == pow {
      assert Row(levels, pow)[j] == levels[pow, j];
    } else {
      assert NodeOk(cmp, levels, pow, i, j);
      NodeIsLeaf(cmp, levels, pow, i + 1, 2 * j);
      NodeIsLeaf(cmp, levels, pow, i + 1, 2 * j + 1);
    }
  }

  /** A compare function that never answers "undefined" leaves no server behind. */
  lemma NullMeansEmpty(cmp: Compare, levels: array2<Node>, pow: nat, i: nat, j: nat, k: nat)
    requires Shaped(levels, pow) && UpToDate(cmp, levels, pow, 0) && NeverUndefined(cmp)
    requires i <= pow && j < Pow2(i) && Pow2(i) <= Pow2(pow) && levels[i, j].Null?
    requires First(pow, i, j) <= k < First(pow, i, j + 1) <= Pow2(pow)
    ensures levels[pow, k].Null?
    decreases pow - i
  {
    if i < pow {
      assert NodeOk(cmp, levels, pow, i, j);
      FirstOrdered(pow, i + 1, 2 * j + 1, 2 * j + 2);
      if k < First(pow, i + 1, 2 * j + 1) {
        NullMeansEmpty(cmp, levels, pow, i + 1, 2 * j, k);
      } else {
        NullMeansEmpty(cmp, levels, pow, i + 1, 2 * j + 1, k);
      }
    }
  }

  // ---------------------------------------------------------------- building and repairing

  /** Compares all inner nodes, from the lowest level up to the root. */
  method BuildTree(cmp: Compare, levels: array2<Node>, pow: nat, call0: nat) returns (call: nat)
    requires Shaped(levels, pow)
    modifies levels
    ensures UpToDate(cmp, levels, pow, 0)
    ensures Row(levels, pow) == old(Row(levels, pow))
  {
    call := call0;
    for i := pow downto 0
      invariant UpToDate(cmp, levels, pow, i)
      invariant Row(levels, pow) == old(Row(levels, pow))
    {
      call := BuildLevel(cmp, levels, pow, i, call);
    }
  }

  method BuildLevel(cmp: Compare, levels: array2<Node>, pow: nat, i: nat, call0: nat) returns (call: nat)
    requires Shaped(levels, pow) && i < pow && UpToDate(cmp, levels, pow, i + 1)
    modifies levels
    ensures UpToDate(cmp, levels, pow, i)
    ensures Row(levels, pow) == old(Row(levels, pow))
  {
    call := call0;
    Pow2Monotone(i, pow);
    Pow2Monotone(i + 1, pow);
    for j := 0 to Pow2(i)
      invariant forall l: nat, m: nat :: i + 1 <= l || (l == i && m < j) ==> NodeOk(cmp, levels, pow, l, m)
      invariant Row(levels, pow) == old(Row(levels, pow))
    {
      ghost var row := Row(levels, pow);
      label before:
      levels[i, j] := Promote(cmp, call, levels[i + 1, 2 * j], levels[i + 1, 2 * j + 1]);
      assert Promoted(cmp, levels[i + 1, 2 * j], levels[i + 1, 2 * j + 1], levels[i, j]);
      call := call + 1;
      assert Row(levels, pow) == row;
      assert NodeOk(cmp, levels, pow, i, j);
      forall l: nat, m: nat | i + 1 <= l || (l == i && m < j) ensures NodeOk(cmp, levels, pow, l, m) {
        assert old@before(NodeOk(cmp, levels, pow, l, m));
      }
    }
  }

  /** Compares again only the ancestors of the leaf that was replaced. */
  method RepairPath(cmp: Compare, levels: array2<Node>, pow: nat, leaf: nat, call0: nat) returns (call: nat)
    requires Shaped(levels, pow) && leaf < Pow2(pow)
    requires StaleAbove(cmp, levels, pow, pow, leaf)
    modifies levels
    ensures UpToDate(cmp, levels, pow, 0)
    ensures Row(levels, pow) == old(Row(levels, pow))
  {
    call := call0;
    var changed: nat := leaf;
    var i: nat := pow;
    while i > 0
      invariant i <= pow && changed < Pow2(i)
      invariant StaleAbove(cmp, levels, pow, i, changed)
      invariant Row(levels, pow) == old(Row(levels, pow))
    {
      Pow2Monotone(i, pow);
      var lft: nat, rht: nat := changed, changed + 1;
      if changed % 2 == 1 {
        lft, rht := changed - 1, changed;
      }
      var parentLoc := changed / 2;
      call := RepairNode(cmp, levels, pow, i, changed, lft, rht, parentLoc, call);
      changed := parentLoc;
      i := i - 1;
    }
  }

  method RepairNode(cmp: Compare, levels: array2<Node>, pow: nat, i: nat, changed: nat,
                    lft: nat, rht: nat, parentLoc: nat, call0: nat) returns (call: nat)
    requires Shaped(levels, pow) && 0 < i <= pow && changed < Pow2(i) <= Pow2(pow)
    requires parentLoc == changed / 2 && lft == 2 * parentLoc && rht == 2 * parentLoc + 1
    requires StaleAbove(cmp, levels, pow, i, changed)
    modifies levels
    ensures StaleAbove(cmp, levels, pow, i - 1, parentLoc)
    ensures Row(levels, pow) == old(Row(levels, pow))
  {
    Pow2Monotone(i - 1, pow);
    ghost var row := Row(levels, pow);
    levels[i - 1, parentLoc] := Promote(cmp, call0, levels[i, lft], levels[i, rht]);
    call := call0 + 1;
    assert Promoted(cmp, levels[i, lft], levels[i, rht], levels[i - 1, parentLoc]);
    assert Row(levels, pow) == row;
    forall l: nat, j: nat
      ensures (l < i - 1 && j == Ancestor(parentLoc, i - 1 - l)) || NodeOk(cmp, levels, pow, l, j)
    {
      if l == i - 1 && j == parentLoc {
      } else {
        assert (l < i && j == Ancestor(changed, i - l)) || old(NodeOk(cmp, levels, pow, l, j));
        assert l < i ==> Ancestor(changed, i - l) == Ancestor(changed / 2, i - l - 1);
        if l + 1 == i - 1 && j == parentLoc / 2 {
          assert Ancestor(parentLoc, 1) == Ancestor(parentLoc / 2, 0);
        }
      }
    }
  }

  // ---------------------------------------------------------------- the merge itself

  /** What one scheduler pass may draw, starting from the given heads. */
  ghost predicate PassResult(cmp: Compare, lens: seq<nat>, start: seq<nat>, room: int, picks: seq<nat>)
    requires |start| == |lens|
  {
    && Draws(lens, start, picks) && |picks| <= room
    && (|lens| >= 2 && Lawful(cmp) ==> picks == NaivePicks(cmp, lens, start, room))
    && (|picks| < room && (|lens| == 1 || NeverUndefined(cmp)) ==> Total(lens, HeadsAfter(start, picks)) == 0)
  }

  /** The draws so far, and what the naive selection would still add to them. */
  ghost predicate Accounts(cmp: Compare, lens: seq<nat>, start: seq<nat>, picks: seq<nat>, heads: seq<nat>, room: nat)
    requires |start| == |lens|
  {
    && |heads| == |lens| && (forall k :: 0 <= k < |lens| ==> heads[k] <= lens[k])
    && Draws(lens, start, picks) && heads == HeadsAfter(start, picks) && |picks| <= room
    && (|lens| >= 2 && Lawful(cmp) ==>
          picks + NaivePicks(cmp, lens, heads, room - |picks|) == NaivePicks(cmp, lens, start, room))
  }

  /** The tree is up to date and its leaves are the heads. */
  ghost predicate TreeShows(cmp: Compare, levels: array2<Node>, pow: nat, lens: seq<nat>, heads: seq<nat>)
    requires Shaped(levels, pow) && |heads| == |lens| <= Pow2(pow)
    reads levels
  {
    LeavesShow(levels, pow, lens, heads) && UpToDate(cmp, levels, pow, 0)
  }

  lemma {:induction false} NextPick(cmp: Compare, levels: array2<Node>, pow: nat, lens: seq<nat>,
                 start: seq<nat>, picks: seq<nat>, heads: seq<nat>, room: nat)
    requires Shaped(levels, pow) && |start| == |lens| == |heads| <= Pow2(pow) && (pow > 0 <==> |lens| >= 2)
    requires Accounts(cmp, lens, start, picks, heads, room) && TreeShows(cmp, levels, pow, lens, heads)
    requires levels[0, 0].At? && |picks| < room
    ensures levels[0, 0].resp < |lens| && heads[levels[0, 0].resp] < lens[levels[0, 0].resp]
    ensures levels[0, 0] == At(levels[0, 0].resp, heads[levels[0, 0].resp])
    ensures var r := levels[0, 0].resp;
      Accounts(cmp, lens, start, picks + [r], heads[r := heads[r] + 1], room)
  {
    RootIsHead(cmp, levels, pow, lens, heads);
    var r := levels[0, 0].resp;
    DrawsSnoc(lens, start, picks, r);
    if |lens| >= 2 && Lawful(cmp) {
      RootIsNaiveSelect(cmp, levels, pow, lens, heads);
      var later := NaivePicks(cmp, lens, heads[r := heads[r] + 1], room - |picks| - 1);
      assert picks + ([r] + later) == (picks + [r]) + later;
    }
  }

  lemma {:induction false} RootIsHead(cmp: Compare, levels: array2<Node>, pow: nat, lens: seq<nat>, heads: seq<nat>)
    requires Shaped(levels, pow) && UpToDate(cmp, levels, pow, 0) && |heads| == |lens| <= Pow2(pow)
    requires LeavesShow(levels, pow, lens, heads) && levels[0, 0].At?
    ensures levels[0, 0].resp < |lens| && levels[0, 0] == At(levels[0, 0].resp, heads[levels[0, 0].resp])
    ensures heads[levels[0, 0].resp] < lens[levels[0, 0].resp]
  {
    assert LeafRow(Row(levels, pow));
    NodeIsLeaf(cmp, levels, pow, 0, 0);
  }

  /** When the root is null the pass is over: nothing more would be selected. */
  lemma {:induction false} PassEnds(cmp: Compare, levels: array2<Node>, pow: nat, lens: seq<nat>,
                 start: seq<nat>, picks: seq<nat>, heads: seq<nat>, room: nat)
    requires Shaped(levels, pow) && |heads| == |start| == |lens| <= Pow2(pow)
    requires pow > 0 <==> |lens| >= 2
    requires Accounts(cmp, lens, start, picks, heads, room) && TreeShows(cmp, levels, pow, lens, heads)
    requires levels[0, 0].Null? || |picks| == room
    ensures PassResult(cmp, lens, start, room, picks)
  {
    if |lens| >= 2 && Lawful(cmp) && |picks| < room {
      RootIsNaiveSelect(cmp, levels, pow, lens, heads);
      assert picks + [] == picks;
    } else if |picks| == room {
      assert picks + [] == picks;
    }
    if |picks| < room && (|lens| == 1 || NeverUndefined(cmp)) {
      forall k | 0 <= k < |lens| ensures heads[k] == lens[k] {
        FirstAtEnd(pow, 0);
        if pow > 0 { NullMeansEmpty(cmp, levels, pow, 0, 0, k); }
        assert levels[pow, k].Null?;
      }
      TotalZero(lens, heads);
    }
  }

  /** `Scheduler::aggregate`: fills aggr after position lastAggregated. lastAggr is only read. */
  method Aggregate<S>(cmp: Compare, aggr: array<S>, lastAggregated: int,
                      responses: seq<seq<S>>, lastAggr: seq<int>, call0: nat)
    returns (last: int, call: nat, ghost picks: seq<nat>)
    requires |lastAggr| == |responses| && -1 <= lastAggregated < aggr.Length
    requires forall k :: 0 <= k < |responses| ==> 0 <= lastAggr[k] + 1 < |responses[k]|
    modifies aggr
    ensures PassResult(cmp, Lengths(responses), Next(lastAggr), aggr.Length - 1 - lastAggregated, picks)
    ensures last == lastAggregated + |picks| < aggr.Length
    ensures aggr[..] == Filled(old(aggr[..]), lastAggregated + 1, Emit(responses, Next(lastAggr), picks))
  {
    last, call, picks := lastAggregated, call0, [];
    if lastAggregated >= aggr.Length - 1 {
      return;
    }
    var pow := TreeHeight(|responses|);
    var levels := new Node[pow + 1, Pow2(pow)];
    InitLeaves(levels, pow, responses, lastAggr);
    call := BuildTree(cmp, levels, pow, call);
    RowKeepsLeaves(levels, pow, Lengths(responses), Next(lastAggr));
    last, call, picks := MergeHeads(cmp, levels, pow, aggr, lastAggregated, responses, Next(lastAggr), call);
  }

  /** The merge loop: emits the root, then replaces its leaf. */
  method MergeHeads<S>(cmp: Compare, levels: array2<Node>, pow: nat, aggr: array<S>, lastAggregated: int,
                       responses: seq<seq<S>>, ghost start: seq<nat>, call0: nat)
    returns (last: int, call: nat, ghost picks: seq<nat>)
    requires Shaped(levels, pow) && |responses| == |start| <= Pow2(pow) && (pow > 0 <==> |responses| >= 2)
    requires forall k :: 0 <= k < |responses| ==> start[k] <= |responses[k]|
    requires TreeShows(cmp, levels, pow, Lengths(responses), start) && -1 <= lastAggregated < aggr.Length
    modifies aggr, levels
    ensures PassResult(cmp, Lengths(responses), start, aggr.Length - 1 - lastAggregated, picks)
    ensures last == lastAggregated + |picks| < aggr.Length
    ensures aggr[..] == Filled(old(aggr[..]), lastAggregated + 1, Emit(responses, start, picks))
  {
    last, call, picks := lastAggregated, call0, [];
    ghost var lens, room, base := Lengths(responses), aggr.Length - 1 - lastAggregated, aggr[..];
    while levels[0, 0].At? && last < aggr.Length - 1
      invariant Accounts(cmp, lens, start, picks, HeadsAfter(start, picks), room)
      invariant TreeShows(cmp, levels, pow, lens, HeadsAfter(start, picks))
      invariant last == lastAggregated + |picks| < aggr.Length
      invariant aggr[..] == Filled(base, lastAggregated + 1, Emit(responses, start, picks))
      decreases aggr.Length - last
    {
      ghost var r := levels[0, 0].resp;
      call := EmitRoot(cmp, levels, pow, aggr, last + 1, responses, start, picks, room, base, lastAggregated + 1, call);
      picks := picks + [r];
      last := last + 1;
    }
    PassEnds(cmp, levels, pow, lens, start, picks, HeadsAfter(start, picks), room);
  }

  method EmitRoot<S>(cmp: Compare, levels: array2<Node>, pow: nat, aggr: array<S>, at: nat,
                     responses: seq<seq<S>>, ghost start: seq<nat>, ghost picks: seq<nat>, ghost room: nat,
                     ghost base: seq<S>, ghost lo: nat, call0: nat)
    returns (call: nat)
    requires Shaped(levels, pow) && |responses| == |start| <= Pow2(pow) && (pow > 0 <==> |responses| >= 2)
    requires Accounts(cmp, Lengths(responses), start, picks, HeadsAfter(start, picks), room)
    requires TreeShows(cmp, levels, pow, Lengths(responses), HeadsAfter(start, picks))
    requires levels[0, 0].At? && |picks| < room && at == lo + |picks| < aggr.Length == |base|
    requires aggr[..] == Filled(base, lo, Emit(responses, start, picks))
    modifies aggr, levels
    ensures old(levels[0, 0]).resp < |responses|
    ensures Accounts(cmp, Lengths(responses), start, picks + [old(levels[0, 0]).resp],
                     HeadsAfter(start, picks + [old(levels[0, 0]).resp]), room)
    ensures TreeShows(cmp, levels, pow, Lengths(responses), HeadsAfter(start, picks + [old(levels[0, 0]).resp]))
    ensures aggr[..] == Filled(base, lo, Emit(responses, start, picks + [old(levels[0, 0]).resp]))
  {
    var r, srv := levels[0, 0].resp, levels[0, 0].srv;
    ghost var lens, heads := Lengths(responses), HeadsAfter(start, picks);
    NextPick(cmp, levels, pow, lens, start, picks, heads, room);
    DrawsSnoc(lens, start, picks, r);
    EmitSnoc(responses, start, picks, r);
    FilledNext(base, lo, Emit(responses, start, picks), responses[r][srv]);
    Store(aggr, at, responses[r][srv]);
    call := Replace(cmp, levels, pow, responses, lens, heads, r, call0);
  }

  /** base with `out` written over it from position lo on. */
  ghost function Filled<S>(base: seq<S>, lo: nat, out: seq<S>): seq<S>
    requires lo + |out| <= |base|
  {
    base[..lo] + out + base[lo + |out|..]
  }

  lemma FilledNext<S>(base: seq<S>, lo: nat, out: seq<S>, x: S)
    requires lo + |out| < |base|
    ensures Filled(base, lo, out + [x]) == Filled(base, lo, out)[lo + |out| := x]
  {
  }

  method Store<S>(aggr: array<S>, at: nat, server: S)
    requires at < aggr.Length
    modifies aggr
    ensures aggr[..] == old(aggr[..])[at := server]
  {
    aggr[at] := server;
  }

  function Next(lastAggr: seq<int>): (heads: seq<nat>)
    requires forall k :: 0 <= k < |lastAggr| ==> 0 <= lastAggr[k] + 1
    ensures |heads| == |lastAggr|
  {
    seq(|lastAggr|, k requires 0 <= k < |lastAggr| => lastAggr[k] + 1)
  }

  method InitLeaves<S>(levels: array2<Node>, pow: nat, responses: seq<seq<S>>, lastAggr: seq<int>)
    requires Shaped(levels, pow) && |lastAggr| == |responses| <= Pow2(pow)
    requires forall k :: 0 <= k < |responses| ==> 0 <= lastAggr[k] + 1 < |responses[k]|
    modifies levels
    ensures LeavesShow(levels, pow, Lengths(responses), Next(lastAggr))
  {
    for idx := 0 to |responses|
      invariant forall k :: 0 <= k < idx ==> levels[pow, k] == At(k, lastAggr[k] + 1)
    {
      levels[pow, idx] := At(idx, lastAggr[idx] + 1);
    }
    for idx := |responses| to Pow2(pow)
      invariant forall k :: 0 <= k < |responses| ==> levels[pow, k] == At(k, lastAggr[k] + 1)
      invariant forall k :: |responses| <= k < idx ==> levels[pow, k] == Null
    {
      levels[pow, idx] := Null;
    }
  }

  lemma {:induction false} RowKeepsLeaves(levels: array2<Node>, pow: nat, lens: seq<nat>, heads: seq<nat>)
    requires Shaped(levels, pow) && |heads| == |lens| <= Pow2(pow)
    requires forall k :: 0 <= k < |lens| ==> Row(levels, pow)[k] == if heads[k] < lens[k] then At(k, heads[k]) else Null
    requires forall k :: |lens| <= k < Pow2(pow) ==> Row(levels, pow)[k] == Null
    ensures LeavesShow(levels, pow, lens, heads)
  {
    assert forall k :: 0 <= k < Pow2(pow) ==> Row(levels, pow)[k] == levels[pow, k];
  }

  /** Replaces the leaf of response r by its next server, then repairs the tree. */
  method Replace<S>(cmp: Compare, levels: array2<Node>, pow: nat, responses: seq<seq<S>>, ghost lens: seq<nat>,
                    ghost heads: seq<nat>, r: nat, call0: nat)
    returns (call: nat)
    requires Shaped(levels, pow) && lens == Lengths(responses)
    requires |heads| == |lens| <= Pow2(pow) && r < |lens| && heads[r] < lens[r]
    requires TreeShows(cmp, levels, pow, lens, heads)
    modifies levels
    ensures TreeShows(cmp, levels, pow, lens, heads[r := heads[r] + 1])
  {
    ghost var heads' := heads[r := heads[r] + 1];
    ghost var row := Row(levels, pow);
    assert row[r] == levels[pow, r] == At(r, heads[r]);
    var newSrvIdx := levels[pow, r].srv + 1;
    var leaf := if newSrvIdx >= |responses[r]| then Null else At(r, newSrvIdx);
    SetLeaf(cmp, levels, pow, r, leaf);
    call := RepairPath(cmp, levels, pow, r, call0);
    assert Row(levels, pow) == row[r := leaf];
    RowKeepsLeaves(levels, pow, lens, heads');
  }

  method SetLeaf(cmp: Compare, levels: array2<Node>, pow: nat, r: nat, leaf: Node)
    requires Shaped(levels, pow) && r < Pow2(pow) && UpToDate(cmp, levels, pow, 0)
    modifies levels
    ensures StaleAbove(cmp, levels, pow, pow, r)
    ensures Row(levels, pow) == old(Row(levels, pow))[r := leaf]
  {
    ghost var row := Row(levels, pow);
    levels[pow, r] := leaf;
    assert Row(levels, pow) == row[r := leaf];
    forall l: nat, j: nat
      ensures (l < pow && j == Ancestor(r, pow - l)) || NodeOk(cmp, levels, pow, l, j)
    {
      assert old(NodeOk(cmp, levels, pow, l, j));
      if l + 1 == pow && j == r / 2 {
        assert Ancestor(r, 1) == Ancestor(r / 2, 0);
      }
    }
  }
}
