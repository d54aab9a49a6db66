/** What one step of `Scheduler::aggregate` has to choose: the naive selection among the
    current heads of all responses, and the laws a compare function has to obey for it. */
module Selection {

  datatype Verdict = Equal | FirstIsBetter | SecondIsBetter | Undefined

  /** A node of the tournament tree: null (resp_idx == -1) or server `srv` of response `resp`. */
  datatype Node = Null | At(resp: nat, srv: nat)

  /** A compare function. The number is that of the call, for those that call rand(). */
  type Compare = (nat, Node, Node) -> Verdict

  /** COMPARE_NODES: the node promoted to the parent of fst and snd. */
  function Promote(cmp: Compare, call: nat, fst: Node, snd: Node): (parent: Node)
    ensures parent == fst || parent == snd || parent == Null
  {
    if fst.Null? then
      if snd.Null? || cmp(call, snd, snd).Undefined? then fst else snd
    else if snd.Null? then
      if cmp(call, fst, fst).Undefined? then snd else fst
    else
      match cmp(call, fst, snd)
      case SecondIsBetter => snd
      case FirstIsBetter => fst
      case Equal => fst
      case Undefined => Null
  }

  // ---------------------------------------------------------------- comparator laws

  ghost predicate Processable(cmp: Compare, x: Node) {
    x.At? && !cmp(0, x, x).Undefined?
  }

  /** x is kept against a y that stands to its right. */
  ghost predicate AtLeast(cmp: Compare, x: Node, y: Node) {
    cmp(0, x, y).FirstIsBetter? || cmp(0, x, y).Equal?
  }

  /** The heads that are ever compared: distinct responses, or a server with itself. */
  ghost predicate Comparable(x: Node, y: Node) {
    x.At? && y.At? && (x == y || x.resp != y.resp)
  }

  ghost predicate PairLaw(cmp: Compare, x: Node, y: Node) {
    && (cmp(0, x, y).Undefined? <==> !Processable(cmp, x) && !Processable(cmp, y))
    && (Processable(cmp, x) && !Processable(cmp, y) ==>
          cmp(0, x, y).FirstIsBetter? && cmp(0, y, x).SecondIsBetter?)
    && (x != y && Processable(cmp, x) && Processable(cmp, y) ==>
          && (cmp(0, x, y).Equal? <==> cmp(0, y, x).Equal?)
          && (cmp(0, x, y).FirstIsBetter? <==> cmp(0, y, x).SecondIsBetter?))
  }

  ghost predicate TripleLaw(cmp: Compare, x: Node, y: Node, z: Node) {
    (Processable(cmp, x) && Processable(cmp, y) && Processable(cmp, z)
     && AtLeast(cmp, x, y) && AtLeast(cmp, y, z)) ==> AtLeast(cmp, x, z)
  }

  /** A total preorder on the processable servers, "undefined" exactly when neither side is
      processable, and the same verdict at every call. */
  ghost predicate Lawful(cmp: Compare) {
    && (forall call: nat, x: Node, y: Node {:trigger cmp(call, x, y)} :: cmp(call, x, y) == cmp(0, x, y))
    && (forall x: Node, y: Node {:trigger PairLaw(cmp, x, y)} :: Comparable(x, y) ==> PairLaw(cmp, x, y))
    && (forall x: Node, y: Node, z: Node {:trigger TripleLaw(cmp, x, y, z)} ::
          x.At? && y.At? && z.At? && x.resp != y.resp && y.resp != z.resp && x.resp != z.resp
          ==> TripleLaw(cmp, x, y, z))
  }

  ghost predicate NeverUndefined(cmp: Compare) {
    forall call, x, y :: !cmp(call, x, y).Undefined?
  }

  // ---------------------------------------------------------------- leftmost best head

  /** The leaves below the responses: leaf k is null or a server of response k. */
  ghost predicate LeafRow(leaves: seq<Node>) {
    forall k :: 0 <= k < |leaves| ==> leaves[k].Null? || leaves[k].resp == k
  }

  /** n is the leftmost best processable leaf of leaves[a..b], null iff there is none. */
  ghost predicate IsBest(cmp: Compare, leaves: seq<Node>, a: int, b: int, n: Node)
    requires 0 <= a <= b <= |leaves|
  {
    if n.Null? then
      forall k :: a <= k < b ==> !Processable(cmp, leaves[k])
    else
      && a <= n.resp < b && leaves[n.resp] == n && Processable(cmp, n)
      && (forall k :: a <= k < n.resp && Processable(cmp, leaves[k]) ==> cmp(0, n, leaves[k]).FirstIsBetter?)
      && (forall k :: n.resp < k < b && Processable(cmp, leaves[k]) ==> AtLeast(cmp, n, leaves[k]))
  }

  /** A leaf is shown as it is; above the leaves an unprocessable server becomes null. */
  ghost function Visible(cmp: Compare, n: Node): Node {
    if Processable(cmp, n) then n else Null
  }

  lemma BestOfTwo(cmp: Compare, leaves: seq<Node>, a: int, m: int, b: int, call: nat, x: Node, y: Node)
    requires Lawful(cmp) && LeafRow(leaves) && 0 <= a <= m <= b <= |leaves|
    requires IsBest(cmp, leaves, a, m, Visible(cmp, x)) && (x.At? ==> a <= x.resp < m)
    requires IsBest(cmp, leaves, m, b, Visible(cmp, y)) && (y.At? ==> m <= y.resp < b)
    ensures IsBest(cmp, leaves, a, b, Promote(cmp, call, x, y))
  {
    if x.At? && y.At? {
      assert PairLaw(cmp, x, y) && PairLaw(cmp, y, x);
      if Processable(cmp, x) && Processable(cmp, y) {
        if cmp(0, x, y).SecondIsBetter? {
          forall k | a <= k < m && Processable(cmp, leaves[k]) ensures cmp(0, y, leaves[k]).FirstIsBetter? {
            BetterThanBeaten(cmp, y, x, leaves[k]);
          }
        } else {
          forall k | m <= k < b && Processable(cmp, leaves[k]) ensures AtLeast(cmp, x, leaves[k]) {
            NoWorseThanBeaten(cmp, x, y, leaves[k]);
          }
        }
      }
    }
  }

  /** y beats x, and x is no worse than z, so y beats z. */
  lemma BetterThanBeaten(cmp: Compare, y: Node, x: Node, z: Node)
    requires Lawful(cmp) && Comparable(x, y) && Comparable(x, z) && Comparable(y, z) && y != x && y != z
    requires Processable(cmp, x) && Processable(cmp, y) && Processable(cmp, z)
    requires cmp(0, x, y).SecondIsBetter? && (x == z || AtLeast(cmp, x, z))
    ensures cmp(0, y, z).FirstIsBetter?
  {
    assert PairLaw(cmp, x, y) && PairLaw(cmp, y, x) && PairLaw(cmp, y, z) && PairLaw(cmp, z, y);
    if x != z {
      assert PairLaw(cmp, x, z);
      assert TripleLaw(cmp, x, z, y);
    }
  }

  lemma NoWorseThanBeaten(cmp: Compare, x: Node, y: Node, z: Node)
    requires Lawful(cmp) && Comparable(x, y) && Comparable(x, z) && Comparable(y, z) && y != x && x != z
    requires Processable(cmp, x) && Processable(cmp, y) && Processable(cmp, z)
    requires !cmp(0, x, y).SecondIsBetter? && !cmp(0, x, y).Undefined?
    requires y == z || AtLeast(cmp, y, z)
    ensures AtLeast(cmp, x, z)
  {
    if y != z {
      assert TripleLaw(cmp, x, y, z);
    }
  }

  lemma BestIsUnique(cmp: Compare, leaves: seq<Node>, a: int, b: int, x: Node, y: Node)
    requires Lawful(cmp) && LeafRow(leaves) && 0 <= a <= b <= |leaves|
    requires IsBest(cmp, leaves, a, b, x) && IsBest(cmp, leaves, a, b, y)
    ensures x == y
  {
    if x.At? && y.At? {
      assert PairLaw(cmp, x, y) && PairLaw(cmp, y, x);
    }
  }

  /** The simple algorithm: look at every head, from left to right. */
  function NaiveSelect(cmp: Compare, leaves: seq<Node>): (best: Node) {
    if leaves == [] then Null
    else Promote(cmp, 0, NaiveSelect(cmp, leaves[..|leaves| - 1]), leaves[|leaves| - 1])
  }

  lemma {:induction false} NaiveSelectIsBest(cmp: Compare, leaves: seq<Node>)
    requires Lawful(cmp) && LeafRow(leaves)
    ensures IsBest(cmp, leaves, 0, |leaves|, NaiveSelect(cmp, leaves))
  {
    if leaves != [] {
      var n := |leaves| - 1;
      NaiveSelectIsBest(cmp, leaves[..n]);
      var x := NaiveSelect(cmp, leaves[..n]);
      assert forall k :: 0 <= k < n ==> leaves[..n][k] == leaves[k];
      assert IsBest(cmp, leaves, 0, n, Visible(cmp, x));
      BestOfTwo(cmp, leaves, 0, n, n + 1, 0, x, leaves[n]);
    }
  }

  // ---------------------------------------------------------------- a whole pass

  /** The heads of all responses as leaves. */
  function Leaves(lens: seq<nat>, heads: seq<nat>): (row: seq<Node>)
    requires |heads| == |lens|
    ensures |row| == |lens| && LeafRow(row)
  {
    seq(|lens|, k requires 0 <= k < |lens| => if heads[k] < lens[k] then At(k, heads[k]) else Null)
  }

  /** The responses drawn from, in order, when each draw takes the naive selection. */
  function NaivePicks(cmp: Compare, lens: seq<nat>, heads: seq<nat>, room: nat): (picks: seq<nat>)
    requires |heads| == |lens|
    ensures |picks| <= room
    decreases room
  {
    if room == 0 then []
    else
      var best := NaiveSelect(cmp, Leaves(lens, heads));
      if best.Null? || |lens| <= best.resp then []
      else [best.resp] + NaivePicks(cmp, lens, heads[best.resp := heads[best.resp] + 1], room - 1)
  }

  /** The heads after drawing from `picks` in order. */
  function HeadsAfter(heads: seq<nat>, picks: seq<nat>): (after: seq<nat>)
    ensures |after| == |heads|
  {
    if picks == [] then heads
    else
      var last := picks[|picks| - 1];
      var before := HeadsAfter(heads, picks[..|picks| - 1]);
      if last < |heads| then before[last := before[last] + 1] else before
  }

  /** Every draw finds a server: the output interleaves prefixes of the responses. */
  predicate Draws(lens: seq<nat>, heads: seq<nat>, picks: seq<nat>)
    requires |heads| == |lens|
  {
    if picks == [] then true
    else
      var before, last := picks[..|picks| - 1], picks[|picks| - 1];
      Draws(lens, heads, before) && last < |lens| && HeadsAfter(heads, before)[last] < lens[last]
  }

  function Lengths<S>(responses: seq<seq<S>>): (lens: seq<nat>)
    ensures |lens| == |responses| && forall k :: 0 <= k < |lens| ==> lens[k] == |responses[k]|
  {
    seq(|responses|, k requires 0 <= k < |responses| => |responses[k]|)
  }

  /** The servers drawn. */
  function Emit<S>(responses: seq<seq<S>>, heads: seq<nat>, picks: seq<nat>): (out: seq<S>)
    requires |heads| == |responses| && Draws(Lengths(responses), heads, picks)
    ensures |out| == |picks|
  {
    if picks == [] then []
    else
      var before, last := picks[..|picks| - 1], picks[|picks| - 1];
      Emit(responses, heads, before) + [responses[last][HeadsAfter(heads, before)[last]]]
  }

  lemma {:induction false} DrawsSnoc(lens: seq<nat>, heads: seq<nat>, picks: seq<nat>, r: nat)
    requires |heads| == |lens| && Draws(lens, heads, picks) && r < |lens|
    requires HeadsAfter(heads, picks)[r] < lens[r]
    ensures Draws(lens, heads, picks + [r])
    ensures HeadsAfter(heads, picks + [r]) == HeadsAfter(heads, picks)[r := HeadsAfter(heads, picks)[r] + 1]
  {
    var all := picks + [r];
    assert |all| == |picks| + 1 && all[..|picks|] == picks && all[|picks|] == r;
    DrawsLast(lens, heads, picks, r, all);
  }

  lemma {:induction false} DrawsLast(lens: seq<nat>, heads: seq<nat>, picks: seq<nat>, r: nat, all: seq<nat>)
    requires |heads| == |lens| && Draws(lens, heads, picks) && r < |lens| && HeadsAfter(heads, picks)[r] < lens[r]
    requires |all| == |picks| + 1 && all[..|picks|] == picks && all[|picks|] == r
    ensures Draws(lens, heads, all)
    ensures HeadsAfter(heads, all) == HeadsAfter(heads, picks)[r := HeadsAfter(heads, picks)[r] + 1]
  {
  }

  lemma {:induction false} EmitSnoc<S>(responses: seq<seq<S>>, heads: seq<nat>, picks: seq<nat>, r: nat)
    requires |heads| == |responses| && Draws(Lengths(responses), heads, picks) && r < |responses|
    requires HeadsAfter(heads, picks)[r] < |responses[r]|
    ensures Draws(Lengths(responses), heads, picks + [r])
    ensures Emit(responses, heads, picks + [r])
         == Emit(responses, heads, picks) + [responses[r][HeadsAfter(heads, picks)[r]]]
  {
    DrawsSnoc(Lengths(responses), heads, picks, r);
    assert (picks + [r])[..|picks|] == picks;
  }

  lemma {:induction false} HeadsGrow(heads: seq<nat>, picks: seq<nat>, r: nat)
    requires r < |heads|
    ensures HeadsAfter(heads, picks)[r] == heads[r] + multiset(picks)[r]
  {
    if picks != [] {
      var n := |picks| - 1;
      HeadsGrow(heads, picks[..n], r);
      assert picks == picks[..n] + [picks[n]];
    }
  }

  function Total(lens: seq<nat>, heads: seq<nat>): (t: int)
    requires |heads| == |lens|
  {
    if lens == [] then 0
    else lens[0] - heads[0] + Total(lens[1..], heads[1..])
  }

  lemma TotalAfterDraw(lens: seq<nat>, heads: seq<nat>, r: nat)
    requires |heads| == |lens| && r < |lens|
    ensures Total(lens, heads[r := heads[r] + 1]) == Total(lens, heads) - 1
  {
    var more := heads[r := heads[r] + 1];
    if r == 0 {
      assert more[1..] == heads[1..];
    } else {
      TotalAfterDraw(lens[1..], heads[1..], r - 1);
      assert more[1..] == heads[1..][r - 1 := heads[1..][r - 1] + 1];
    }
  }

  lemma {:induction false} TotalZero(lens: seq<nat>, heads: seq<nat>)
    requires |heads| == |lens| && forall k :: 0 <= k < |lens| ==> heads[k] == lens[k]
    ensures Total(lens, heads) == 0
  {
    if lens != [] {
      TotalZero(lens[1..], heads[1..]);
    }
  }

  lemma {:induction false} TotalNonNegative(lens: seq<nat>, heads: seq<nat>)
    requires |heads| == |lens| && forall k :: 0 <= k < |lens| ==> heads[k] <= lens[k]
    ensures Total(lens, heads) >= 0
    ensures (exists k :: 0 <= k < |lens| && heads[k] < lens[k]) ==> Total(lens, heads) > 0
  {
    if lens != [] {
      TotalNonNegative(lens[1..], heads[1..]);
      if exists k :: 0 <= k < |lens| && heads[k] < lens[k] {
        var k :| 0 <= k < |lens| && heads[k] < lens[k];
        if k > 0 {
          assert heads[1..][k - 1] < lens[1..][k - 1];
        }
      }
    }
  }
}
