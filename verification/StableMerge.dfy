/** The reference for aggregation: a stable merge of server lists under a compare function,
    and the algebra that lets merges be nested and cut to a fixed number of servers. */
module StableMerge {
  import opened Selection

  /** A compare function on servers, as opposed to positions. */
  type ServerCompare<!S> = (S, S) -> Verdict

  ghost predicate Usable<S>(cs: ServerCompare<S>, x: S) {
    !cs(x, x).Undefined?
  }

  ghost predicate Keeps<S>(cs: ServerCompare<S>, x: S, y: S) {
    cs(x, y).FirstIsBetter? || cs(x, y).Equal?
  }

  ghost predicate PairOk<S>(cs: ServerCompare<S>, x: S, y: S) {
    && (cs(x, y).Undefined? <==> !Usable(cs, x) && !Usable(cs, y))
    && ((Usable(cs, x) && !Usable(cs, y)) ==> cs(x, y).FirstIsBetter? && cs(y, x).SecondIsBetter?)
    && ((Usable(cs, x) && Usable(cs, y)) ==>
          && (cs(x, y).Equal? <==> cs(y, x).Equal?)
          && (cs(x, y).FirstIsBetter? <==> cs(y, x).SecondIsBetter?))
  }

  ghost predicate TripleOk<S>(cs: ServerCompare<S>, x: S, y: S, z: S) {
    (Usable(cs, x) && Usable(cs, y) && Usable(cs, z) && Keeps(cs, x, y) && Keeps(cs, y, z)) ==> Keeps(cs, x, z)
  }

  /** On servers that satisfy dom: a total preorder on the usable ones, "undefined" exactly
      when neither side is usable. */
  ghost predicate LawfulOn<S(!new)>(cs: ServerCompare<S>, dom: S -> bool) {
    && (forall x, y {:trigger PairOk(cs, x, y)} :: dom(x) && dom(y) ==> PairOk(cs, x, y))
    && (forall x, y, z {:trigger TripleOk(cs, x, y, z)} :: dom(x) && dom(y) && dom(z) ==> TripleOk(cs, x, y, z))
  }

  /** All servers of the list are known to the laws and usable. */
  ghost predicate Good<S>(cs: ServerCompare<S>, dom: S -> bool, xs: seq<S>) {
    forall k :: 0 <= k < |xs| ==> dom(xs[k]) && Usable(cs, xs[k])
  }

  ghost predicate AllGood<S>(cs: ServerCompare<S>, dom: S -> bool, lists: seq<seq<S>>) {
    forall k :: 0 <= k < |lists| ==> Good(cs, dom, lists[k])
  }

  // ---------------------------------------------------------------- merging

  /** Merges two lists; the first one wins ties. */
  function Merge2<S>(cs: ServerCompare<S>, xs: seq<S>, ys: seq<S>): (zs: seq<S>)
    ensures |zs| == |xs| + |ys|
    decreases |xs| + |ys|
  {
    if xs == [] then ys
    else if ys == [] then xs
    else if cs(xs[0], ys[0]).SecondIsBetter? then [ys[0]] + Merge2(cs, xs, ys[1..])
    else [xs[0]] + Merge2(cs, xs[1..], ys)
  }

  function MergeAll<S>(cs: ServerCompare<S>, lists: seq<seq<S>>): (zs: seq<S>) {
    if lists == [] then [] else Merge2(cs, lists[0], MergeAll(cs, lists[1..]))
  }

  function Take<S>(k: nat, xs: seq<S>): (ys: seq<S>)
    ensures |ys| == if k < |xs| then k else |xs|
  {
    if k < |xs| then xs[..k] else xs
  }

  lemma {:induction false} Merge2Good<S>(cs: ServerCompare<S>, dom: S -> bool, xs: seq<S>, ys: seq<S>)
    requires Good(cs, dom, xs) && Good(cs, dom, ys)
    ensures Good(cs, dom, Merge2(cs, xs, ys))
    decreases |xs| + |ys|
  {
    if xs != [] && ys != [] {
      if cs(xs[0], ys[0]).SecondIsBetter? {
        Merge2Good(cs, dom, xs, ys[1..]);
      } else {
        Merge2Good(cs, dom, xs[1..], ys);
      }
    }
  }

  lemma {:induction false} MergeAllGood<S>(cs: ServerCompare<S>, dom: S -> bool, lists: seq<seq<S>>)
    requires AllGood(cs, dom, lists)
    ensures Good(cs, dom, MergeAll(cs, lists))
  {
    if lists != [] {
      MergeAllGood(cs, dom, lists[1..]);
      Merge2Good(cs, dom, lists[0], MergeAll(cs, lists[1..]));
    }
  }

  /** Nothing is lost and nothing is invented. */
  lemma {:induction false} Merge2Permutes<S>(cs: ServerCompare<S>, xs: seq<S>, ys: seq<S>)
    ensures multiset(Merge2(cs, xs, ys)) == multiset(xs) + multiset(ys)
    decreases |xs| + |ys|
  {
    if xs != [] && ys != [] {
      if cs(xs[0], ys[0]).SecondIsBetter? {
        Merge2Permutes(cs, xs, ys[1..]);
        HeadCounted(ys, ys[0], ys[1..]);
        HeadCounted(Merge2(cs, xs, ys), ys[0], Merge2(cs, xs, ys[1..]));
      } else {
        Merge2Permutes(cs, xs[1..], ys);
        HeadCounted(xs, xs[0], xs[1..]);
        HeadCounted(Merge2(cs, xs, ys), xs[0], Merge2(cs, xs[1..], ys));
      }
    }
  }

  lemma HeadCounted<S>(xs: seq<S>, x: S, rest: seq<S>)
    requires xs == [x] + rest
    ensures multiset(xs) == multiset{x} + multiset(rest)
  {
  }

  ghost function AllServers<S>(lists: seq<seq<S>>): multiset<S> {
    if lists == [] then multiset{} else multiset(lists[0]) + AllServers(lists[1..])
  }

  lemma {:induction false} MergeAllPermutes<S>(cs: ServerCompare<S>, lists: seq<seq<S>>)
    ensures multiset(MergeAll(cs, lists)) == AllServers(lists)
  {
    if lists != [] {
      MergeAllPermutes(cs, lists[1..]);
      Merge2Permutes(cs, lists[0], MergeAll(cs, lists[1..]));
    }
  }

  ghost predicate Ordered<S>(cs: ServerCompare<S>, xs: seq<S>) {
    forall i, j :: 0 <= i < j < |xs| ==> Keeps(cs, xs[i], xs[j])
  }

  /** Prepending a server that is no worse than all others keeps a list ordered. */
  lemma OrderedCons<S>(cs: ServerCompare<S>, x: S, xs: seq<S>)
    requires Ordered(cs, xs) && forall y :: y in xs ==> Keeps(cs, x, y)
    ensures Ordered(cs, [x] + xs)
  {
    var zs := [x] + xs;
    forall i, j | 0 <= i < j < |zs| ensures Keeps(cs, zs[i], zs[j]) {
      assert zs[j] == xs[j - 1];
    }
  }

  lemma {:induction false} Merge2Ordered<S(!new)>(cs: ServerCompare<S>, dom: S -> bool, xs: seq<S>, ys: seq<S>)
    requires LawfulOn(cs, dom) && Good(cs, dom, xs) && Good(cs, dom, ys)
    requires Ordered(cs, xs) && Ordered(cs, ys)
    ensures Ordered(cs, Merge2(cs, xs, ys))
    decreases |xs| + |ys|
  {
    if xs != [] && ys != [] {
      var x, y := xs[0], ys[0];
      assert PairOk(cs, x, y);
      assert forall z :: z in ys[1..] ==> Keeps(cs, y, z);
      assert forall z :: z in xs[1..] ==> Keeps(cs, x, z);
      if cs(x, y).SecondIsBetter? {
        Merge2Ordered(cs, dom, xs, ys[1..]);
        Merge2Permutes(cs, xs, ys[1..]);
        forall z | z in Merge2(cs, xs, ys[1..]) ensures Keeps(cs, y, z) {
          assert z in multiset(Merge2(cs, xs, ys[1..]));
          AllKept(cs, dom, y, xs, ys[1..], z);
        }
        OrderedCons(cs, y, Merge2(cs, xs, ys[1..]));
      } else {
        Merge2Ordered(cs, dom, xs[1..], ys);
        Merge2Permutes(cs, xs[1..], ys);
        forall z | z in Merge2(cs, xs[1..], ys) ensures Keeps(cs, x, z) {
          assert z in multiset(Merge2(cs, xs[1..], ys));
          AllKept(cs, dom, x, ys, xs[1..], z);
        }
        OrderedCons(cs, x, Merge2(cs, xs[1..], ys));
      }
    }
  }

  /** b is no worse than the head of an ordered list nor than anything of another one. */
  lemma AllKept<S(!new)>(cs: ServerCompare<S>, dom: S -> bool, b: S, others: seq<S>, own: seq<S>, z: S)
    requires LawfulOn(cs, dom) && dom(b) && Usable(cs, b) && Good(cs, dom, others) && Ordered(cs, others)
    requires others != [] && (Keeps(cs, b, others[0]) || cs(others[0], b).SecondIsBetter?)
    requires forall y :: y in own ==> Keeps(cs, b, y)
    requires z in multiset(others) + multiset(own)
    ensures Keeps(cs, b, z)
  {
    assert dom(others[0]) && PairOk(cs, others[0], b) && PairOk(cs, b, others[0]);
    if z !in own {
      assert z in others;
      var k :| 0 <= k < |others| && others[k] == z;
      assert Keeps(cs, b, others[0]);
      if k > 0 {
        assert dom(others[k]) && Usable(cs, others[k]) && Usable(cs, others[0]);
        assert TripleOk(cs, b, others[0], others[k]);
      }
    }
  }

  /** Merging ordered lists gives an ordered list of all their servers, so that a cut after
      k servers keeps the best k: whatever is left out is no better than what is kept. */
  lemma {:induction false} MergeAllOrdered<S(!new)>(cs: ServerCompare<S>, dom: S -> bool, lists: seq<seq<S>>)
    requires LawfulOn(cs, dom) && AllGood(cs, dom, lists)
    requires forall k :: 0 <= k < |lists| ==> Ordered(cs, lists[k])
    ensures Ordered(cs, MergeAll(cs, lists))
  {
    if lists != [] {
      MergeAllOrdered(cs, dom, lists[1..]);
      MergeAllGood(cs, dom, lists[1..]);
      Merge2Ordered(cs, dom, lists[0], MergeAll(cs, lists[1..]));
    }
  }

  // ---------------------------------------------------------------- nesting merges

  lemma {:induction false} Merge2Assoc<S(!new)>(cs: ServerCompare<S>, dom: S -> bool, xs: seq<S>, ys: seq<S>,
                                                zs: seq<S>)
    requires LawfulOn(cs, dom) && Good(cs, dom, xs) && Good(cs, dom, ys) && Good(cs, dom, zs)
    ensures Merge2(cs, Merge2(cs, xs, ys), zs) == Merge2(cs, xs, Merge2(cs, ys, zs))
    decreases |xs| + |ys| + |zs|
  {
    if xs != [] && ys != [] && zs != [] {
      var x, y, z := xs[0], ys[0], zs[0];
      assert PairOk(cs, x, y) && PairOk(cs, y, z) && PairOk(cs, x, z) && PairOk(cs, z, y) && PairOk(cs, y, x);
      assert TripleOk(cs, x, y, z) && TripleOk(cs, z, y, x) && TripleOk(cs, x, z, y);
      var xy, yz := Merge2(cs, xs, ys), Merge2(cs, ys, zs);
      if cs(x, y).SecondIsBetter? {
        assert xy == [y] + Merge2(cs, xs, ys[1..]) && xy[1..] == Merge2(cs, xs, ys[1..]);
        if cs(y, z).SecondIsBetter? {
          Merge2Assoc(cs, dom, xs, ys, zs[1..]);
          assert yz[1..] == Merge2(cs, ys, zs[1..]);
        } else {
          Merge2Assoc(cs, dom, xs, ys[1..], zs);
          assert yz[1..] == Merge2(cs, ys[1..], zs);
        }
      } else {
        assert xy == [x] + Merge2(cs, xs[1..], ys) && xy[1..] == Merge2(cs, xs[1..], ys);
        if cs(x, z).SecondIsBetter? {
          Merge2Assoc(cs, dom, xs, ys, zs[1..]);
          assert yz[1..] == Merge2(cs, ys, zs[1..]);
        } else {
          Merge2Assoc(cs, dom, xs[1..], ys, zs);
        }
      }
    }
  }

  lemma {:induction false} MergeAllAppend<S(!new)>(cs: ServerCompare<S>, dom: S -> bool,
                                                   lists: seq<seq<S>>, more: seq<seq<S>>)
    requires LawfulOn(cs, dom) && AllGood(cs, dom, lists) && AllGood(cs, dom, more)
    ensures MergeAll(cs, lists + more) == Merge2(cs, MergeAll(cs, lists), MergeAll(cs, more))
  {
    if lists == [] {
      assert lists + more == more;
    } else {
      assert (lists + more)[1..] == lists[1..] + more;
      MergeAllAppend(cs, dom, lists[1..], more);
      MergeAllGood(cs, dom, lists[1..]);
      MergeAllGood(cs, dom, more);
      Merge2Assoc(cs, dom, lists[0], MergeAll(cs, lists[1..]), MergeAll(cs, more));
    }
  }

  /** The first k servers of a merge depend on the first k of either side only. */
  lemma {:induction false} TakeMerge2<S>(cs: ServerCompare<S>, k: nat, xs: seq<S>, ys: seq<S>, xs': seq<S>,
                                         ys': seq<S>)
    requires Take(k, xs) == Take(k, xs') && Take(k, ys) == Take(k, ys')
    ensures Take(k, Merge2(cs, xs, ys)) == Take(k, Merge2(cs, xs', ys'))
    decreases k
  {
    if k > 0 {
      assert xs == [] <==> xs' == [];
      assert ys == [] <==> ys' == [];
      if xs != [] && ys != [] {
        assert Take(k, xs)[0] == xs[0] && Take(k, xs')[0] == xs'[0];
        assert Take(k, ys)[0] == ys[0] && Take(k, ys')[0] == ys'[0];
        if cs(xs[0], ys[0]).SecondIsBetter? {
          TakeShorter(k, xs, xs');
          TakeTail(k, ys, ys');
          TakeMerge2(cs, k - 1, xs, ys[1..], xs', ys'[1..]);
          TakeCons(k, ys[0], Merge2(cs, xs, ys[1..]), Merge2(cs, xs', ys'[1..]));
        } else {
          TakeShorter(k, ys, ys');
          TakeTail(k, xs, xs');
          TakeMerge2(cs, k - 1, xs[1..], ys, xs'[1..], ys');
          TakeCons(k, xs[0], Merge2(cs, xs[1..], ys), Merge2(cs, xs'[1..], ys'));
        }
      }
    }
  }

  lemma TakeShorter<S>(k: nat, xs: seq<S>, ys: seq<S>)
    requires k > 0 && Take(k, xs) == Take(k, ys)
    ensures Take(k - 1, xs) == Take(k - 1, ys)
  {
    assert Take(k - 1, xs) == Take(k - 1, Take(k, xs));
    assert Take(k - 1, ys) == Take(k - 1, Take(k, ys));
  }

  lemma TakeTail<S>(k: nat, xs: seq<S>, ys: seq<S>)
    requires k > 0 && xs != [] && ys != [] && Take(k, xs) == Take(k, ys)
    ensures Take(k - 1, xs[1..]) == Take(k - 1, ys[1..])
  {
    assert Take(k - 1, xs[1..]) == Take(k, xs)[1..];
    assert Take(k - 1, ys[1..]) == Take(k, ys)[1..];
  }

  lemma TakeCons<S>(k: nat, x: S, xs: seq<S>, ys: seq<S>)
    requires k > 0 && Take(k - 1, xs) == Take(k - 1, ys)
    ensures Take(k, [x] + xs) == Take(k, [x] + ys)
  {
    assert Take(k, [x] + xs) == [x] + Take(k - 1, xs);
    assert Take(k, [x] + ys) == [x] + Take(k - 1, ys);
  }

  // ---------------------------------------------------------------- naive selection merges

  /** The head that is the leftmost best comes first, and the rest is merged as before. */
  lemma MergeAllStep<S(!new)>(cs: ServerCompare<S>, dom: S -> bool, lists: seq<seq<S>>, r: nat)
    requires LawfulOn(cs, dom) && AllGood(cs, dom, lists) && r < |lists| && lists[r] != []
    requires forall k :: 0 <= k < r && lists[k] != [] ==> cs(lists[r][0], lists[k][0]).FirstIsBetter?
    requires forall k :: r < k < |lists| && lists[k] != [] ==> Keeps(cs, lists[r][0], lists[k][0])
    ensures MergeAll(cs, lists) == [lists[r][0]] + MergeAll(cs, lists[r := lists[r][1..]])
  {
    var rest, x := MergeAll(cs, lists[1..]), lists[r][0];
    var lists' := lists[r := lists[r][1..]];
    if r == 0 {
      assert lists'[1..] == lists[1..];
      if rest != [] {
        var k := MergeAllHead(cs, lists[1..]);
        assert lists[1..][k] == lists[k + 1];
      }
    } else {
      assert lists[1..][r - 1] == lists[r];
      assert forall k :: 0 <= k < |lists| - 1 ==> lists[1..][k] == lists[k + 1];
      MergeAllStep(cs, dom, lists[1..], r - 1);
      assert lists'[1..] == lists[1..][r - 1 := lists[r][1..]];
      assert rest[1..] == MergeAll(cs, lists'[1..]);
      if lists[0] != [] {
        assert PairOk(cs, x, lists[0][0]) && dom(lists[0][0]);
      }
    }
  }

  lemma MergeAllHead<S>(cs: ServerCompare<S>, lists: seq<seq<S>>) returns (k: nat)
    requires MergeAll(cs, lists) != []
    ensures k < |lists| && lists[k] != [] && MergeAll(cs, lists)[0] == lists[k][0]
  {
    var rest := MergeAll(cs, lists[1..]);
    if lists[0] == [] || (rest != [] && cs(lists[0][0], rest[0]).SecondIsBetter?) {
      k := MergeAllHead(cs, lists[1..]);
      k := k + 1;
    } else {
      k := 0;
    }
  }

  lemma {:induction false} MergeAllEmpty<S>(cs: ServerCompare<S>, lists: seq<seq<S>>)
    requires forall k :: 0 <= k < |lists| ==> lists[k] == []
    ensures MergeAll(cs, lists) == []
  {
    if lists != [] { MergeAllEmpty(cs, lists[1..]); }
  }
}
