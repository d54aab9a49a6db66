/** The compare functions of src/agent/Schedulers.cc on the estimation vectors of two
    servers. A value is a real; a tag that is absent stands for the "missing" default. */
module Estimates {
  import opened Selection
  import opened StableMerge

  const EST_TIMESINCELASTSOLVE := 4

  datatype Server = Server(name: string, estim: map<int, real>)

  /** diet_est_defined_internal: a negative tag is never defined. */
  predicate Has(s: Server, tag: int) {
    tag >= 0 && tag in s.estim
  }

  /** diet_est_get_internal */
  function Get(s: Server, tag: int, missing: real): real {
    if Has(s, tag) then s.estim[tag] else missing
  }

  /** `same`: both sides are the same position, as when the sibling node is null. */
  function RRCompare(same: bool, s1: Server, s2: Server): Verdict {
    var t1, t2 := Get(s1, EST_TIMESINCELASTSOLVE, -1.0), Get(s2, EST_TIMESINCELASTSOLVE, -1.0);
    if same then if t1 == -1.0 then Undefined else Equal
    else if t1 < 0.0 then if t2 < 0.0 then Undefined else SecondIsBetter
    else if t2 < 0.0 then FirstIsBetter
    else if t1 < t2 then SecondIsBetter
    else if t1 == t2 then Equal
    else FirstIsBetter
  }

  /** Round robin as a compare function on servers. */
  function RR(s1: Server, s2: Server): Verdict {
    RRCompare(false, s1, s2)
  }

  /** A missing value counts as HUGE_VAL. */
  function MinCompare(tag: int, s1: Server, s2: Server): Verdict {
    if !Has(s1, tag) then if !Has(s2, tag) then Undefined else SecondIsBetter
    else if !Has(s2, tag) then FirstIsBetter
    else if s1.estim[tag] > s2.estim[tag] then SecondIsBetter
    else if s1.estim[tag] == s2.estim[tag] then Equal
    else FirstIsBetter
  }

  /** A missing value counts as -HUGE_VAL. */
  function MaxCompare(tag: int, s1: Server, s2: Server): Verdict {
    if !Has(s1, tag) then if !Has(s2, tag) then Undefined else SecondIsBetter
    else if !Has(s2, tag) then FirstIsBetter
    else if s1.estim[tag] < s2.estim[tag] then SecondIsBetter
    else if s1.estim[tag] == s2.estim[tag] then Equal
    else FirstIsBetter
  }

  function Abs(tag: int): nat {
    if tag < 0 then -tag else tag
  }

  /** What one entry of the priority list decides; None when the two servers tie on it. */
  datatype Decision = Tie | Decided(verdict: Verdict)

  function Decide(tag: int, s1: Server, s2: Server): Decision {
    var t := Abs(tag);
    if !Has(s1, t) then Decided(if !Has(s2, t) then Undefined else SecondIsBetter)
    else if !Has(s2, t) then Decided(FirstIsBetter)
    else if s1.estim[t] == s2.estim[t] then Tie
    else if (tag < 0) == (s1.estim[t] < s2.estim[t]) then Decided(FirstIsBetter)
    else Decided(SecondIsBetter)
  }

  /** Lexicographic: the first entry that is not a tie decides. */
  function PriorityCompare(tags: seq<int>, s1: Server, s2: Server): Verdict {
    if tags == [] then Equal
    else if Decide(tags[0], s1, s2).Decided? then Decide(tags[0], s1, s2).verdict
    else PriorityCompare(tags[1..], s1, s2)
  }

  /** The loop of PriorityScheduler_compare. A negative tag asks for the smallest value. */
  method PriorityCompareLoop(tags: seq<int>, s1: Server, s2: Server) returns (v: Verdict)
    ensures v == PriorityCompare(tags, s1, s2)
  {
    for i := 0 to |tags|
      invariant PriorityCompare(tags, s1, s2) == PriorityCompare(tags[i..], s1, s2)
    {
      var minimize, tag := false, tags[i];
      if tag < 0 {
        tag := -tag;
        minimize := true;
      }
      var exists1, exists2 := Has(s1, tag), Has(s2, tag);
      var val1, val2 := Get(s1, tag, 0.0), Get(s2, tag, 0.0);
      if !exists1 && !exists2 { return Undefined; }
      if !exists1 { return SecondIsBetter; }
      if !exists2 { return FirstIsBetter; }
      if minimize {
        if val1 < val2 { return FirstIsBetter; } else if val2 < val1 { return SecondIsBetter; }
      } else {
        if val1 > val2 { return FirstIsBetter; } else if val2 > val1 { return SecondIsBetter; }
      }
      assert tags[i..][1..] == tags[i + 1..];
    }
    return Equal;
  }

  // ---------------------------------------------------------------- what the verdicts mean

  /** The server reports how long it has waited since its last job. */
  predicate Waited(s: Server) {
    4 in s.estim && s.estim[4] >= 0.0
  }

  /** Round robin prefers the server that has waited longer. */
  lemma RRMeaning(s1: Server, s2: Server)
    ensures RR(s1, s2).Undefined? <==> !Waited(s1) && !Waited(s2)
    ensures Waited(s1) && !Waited(s2) ==> RR(s1, s2).FirstIsBetter? && RR(s2, s1).SecondIsBetter?
    ensures Waited(s1) && Waited(s2) ==>
      && (RR(s1, s2).FirstIsBetter? <==> s1.estim[4] > s2.estim[4])
      && (RR(s1, s2).SecondIsBetter? <==> s1.estim[4] < s2.estim[4])
      && (RR(s1, s2).Equal? <==> s1.estim[4] == s2.estim[4])
  {
  }

  /** Min prefers the smaller value, and any value to none. */
  lemma MinMeaning(tag: nat, s1: Server, s2: Server)
    ensures MinCompare(tag, s1, s2).Undefined? <==> tag !in s1.estim && tag !in s2.estim
    ensures MinCompare(tag, s1, s2).FirstIsBetter? <==>
      tag in s1.estim && (tag in s2.estim ==> s1.estim[tag] < s2.estim[tag])
    ensures MinCompare(tag, s1, s2).SecondIsBetter? <==>
      tag in s2.estim && (tag in s1.estim ==> s2.estim[tag] < s1.estim[tag])
  {
  }

  /** Max prefers the larger value, and any value to none. */
  lemma MaxMeaning(tag: nat, s1: Server, s2: Server)
    ensures MaxCompare(tag, s1, s2).Undefined? <==> tag !in s1.estim && tag !in s2.estim
    ensures MaxCompare(tag, s1, s2).FirstIsBetter? <==>
      tag in s1.estim && (tag in s2.estim ==> s1.estim[tag] > s2.estim[tag])
    ensures MaxCompare(tag, s1, s2).SecondIsBetter? <==>
      tag in s2.estim && (tag in s1.estim ==> s2.estim[tag] > s1.estim[tag])
  {
  }

  /** x has a value for one signed tag that y lacks, or a better one: a larger value, or a
      smaller one for a negative tag. */
  predicate Prefers(tag: int, x: Server, y: Server) {
    if tag >= 0 then tag in x.estim && (tag in y.estim ==> x.estim[tag] > y.estim[tag])
    else -tag in x.estim && (-tag in y.estim ==> x.estim[-tag] < y.estim[-tag])
  }

  /** Both have the same value for the tag. */
  predicate Ties(tag: int, x: Server, y: Server) {
    var t := if tag >= 0 then tag else -tag;
    t in x.estim && t in y.estim && x.estim[t] == y.estim[t]
  }

  /** They tie on the first k tags and x is preferred for the next. */
  predicate WinsAt(tags: seq<int>, k: nat, x: Server, y: Server)
    requires k < |tags|
  {
    (forall j :: 0 <= j < k ==> Ties(tags[j], x, y)) && Prefers(tags[k], x, y)
  }

  predicate Wins(tags: seq<int>, x: Server, y: Server) {
    exists k :: 0 <= k < |tags| && WinsAt(tags, k, x, y)
  }

  /** The priority list compares lexicographically. */
  lemma {:induction false} PriorityMeaning(tags: seq<int>, x: Server, y: Server)
    ensures PriorityCompare(tags, x, y).FirstIsBetter? <==> Wins(tags, x, y)
    ensures PriorityCompare(tags, x, y).SecondIsBetter? <==> Wins(tags, y, x)
    ensures PriorityCompare(tags, x, y).Equal? <==> forall k :: 0 <= k < |tags| ==> Ties(tags[k], x, y)
  {
    if tags != [] {
      PriorityMeaning(tags[1..], x, y);
      WinsStep(tags, x, y);
      WinsStep(tags, y, x);
      assert forall k :: 0 < k < |tags| ==> tags[k] == tags[1..][k - 1];
      assert forall k :: 0 <= k < |tags| - 1 ==> tags[1..][k] == tags[k + 1];
    }
  }

  lemma WinsStep(tags: seq<int>, x: Server, y: Server)
    requires tags != []
    ensures Wins(tags, x, y) <==> Prefers(tags[0], x, y) || (Ties(tags[0], x, y) && Wins(tags[1..], x, y))
  {
    if Prefers(tags[0], x, y) { assert WinsAt(tags, 0, x, y); }
    if Ties(tags[0], x, y) && Wins(tags[1..], x, y) {
      var k :| 0 <= k < |tags| - 1 && WinsAt(tags[1..], k, x, y);
      forall j | 0 <= j < k + 1 ensures Ties(tags[j], x, y) {
        if j > 0 { assert tags[j] == tags[1..][j - 1]; }
      }
      assert WinsAt(tags, k + 1, x, y);
    }
    if Wins(tags, x, y) {
      var k :| 0 <= k < |tags| && WinsAt(tags, k, x, y);
      if k > 0 {
        assert Ties(tags[0], x, y);
        forall j | 0 <= j < k - 1 ensures Ties(tags[1..][j], x, y) {
          assert tags[1..][j] == tags[j + 1];
        }
        assert WinsAt(tags[1..], k - 1, x, y);
      }
    }
  }

  // ---------------------------------------------------------------- laws

  lemma MinLaws(tag: int)
    ensures LawfulOn((x, y) => MinCompare(tag, x, y), x => true)
  {
  }

  lemma MaxLaws(tag: int)
    ensures LawfulOn((x, y) => MaxCompare(tag, x, y), x => true)
  {
  }

  /** The round-robin values of the source: -1 for "never solved", or a duration. */
  predicate RRValue(s: Server) {
    var t := Get(s, EST_TIMESINCELASTSOLVE, -1.0);
    t == -1.0 || t >= 0.0
  }

  /** Comparing a server with itself and comparing it with an equal one agree exactly on
      these values: any other negative value passes for processable when it stands alone. */
  lemma RRSelfCompare(s: Server)
    ensures RRCompare(true, s, s) == RRCompare(false, s, s) <==> RRValue(s)
  {
  }

  lemma RRLaws()
    ensures LawfulOn(RR, RRValue)
  {
  }

  /** The server defines every listed tag. */
  predicate DefinesAll(tags: seq<int>, s: Server) {
    forall k :: 0 <= k < |tags| ==> Has(s, Abs(tags[k]))
  }

  /** All listed tags, or not even the first. */
  predicate AllOrNotFirst(tags: seq<int>, s: Server) {
    DefinesAll(tags, s) || (tags != [] && !Has(s, Abs(tags[0])))
  }

  lemma {:induction false} PriorityOnDefined(tags: seq<int>, x: Server, y: Server)
    requires DefinesAll(tags, x) && DefinesAll(tags, y)
    ensures !PriorityCompare(tags, x, y).Undefined?
    ensures PriorityCompare(tags, x, y).Equal? <==> PriorityCompare(tags, y, x).Equal?
    ensures PriorityCompare(tags, x, y).FirstIsBetter? <==> PriorityCompare(tags, y, x).SecondIsBetter?
    ensures PriorityCompare(tags, x, x).Equal?
  {
    if tags != [] {
      assert Has(x, Abs(tags[0])) && Has(y, Abs(tags[0]));
      PriorityOnDefined(tags[1..], x, y);
    }
  }

  lemma {:induction false} PriorityTransitive(tags: seq<int>, x: Server, y: Server, z: Server)
    requires DefinesAll(tags, x) && DefinesAll(tags, y) && DefinesAll(tags, z)
    requires !PriorityCompare(tags, x, y).SecondIsBetter? && !PriorityCompare(tags, y, z).SecondIsBetter?
    ensures !PriorityCompare(tags, x, z).SecondIsBetter?
  {
    if tags != [] {
      var t := Abs(tags[0]);
      assert Has(x, t) && Has(y, t) && Has(z, t);
      if x.estim[t] == y.estim[t] == z.estim[t] {
        PriorityTransitive(tags[1..], x, y, z);
      }
    }
  }

  /** The priority comparator is lawful on servers that define all tags or lack the first. */
  lemma PriorityLaws(tags: seq<int>)
    ensures LawfulOn((x, y) => PriorityCompare(tags, x, y), x => AllOrNotFirst(tags, x))
  {
    var cs := (x, y) => PriorityCompare(tags, x, y);
    forall x: Server | AllOrNotFirst(tags, x)
      ensures cs(x, x) == (if DefinesAll(tags, x) then Equal else Undefined)
    {
      if DefinesAll(tags, x) { PriorityOnDefined(tags, x, x); }
    }
    forall x: Server, y: Server | AllOrNotFirst(tags, x) && AllOrNotFirst(tags, y)
      ensures PairOk(cs, x, y)
    {
      if DefinesAll(tags, x) && DefinesAll(tags, y) {
        PriorityOnDefined(tags, x, y);
      } else if tags != [] {
        assert DefinesAll(tags, x) ==> Has(x, Abs(tags[0]));
        assert DefinesAll(tags, y) ==> Has(y, Abs(tags[0]));
      }
    }
    forall x: Server, y: Server, z: Server
      | AllOrNotFirst(tags, x) && AllOrNotFirst(tags, y) && AllOrNotFirst(tags, z)
      ensures TripleOk(cs, x, y, z)
    {
      if DefinesAll(tags, x) && DefinesAll(tags, y) && DefinesAll(tags, z) {
        PriorityOnDefined(tags, x, y);
        PriorityOnDefined(tags, y, z);
        PriorityOnDefined(tags, x, z);
        if Keeps(cs, x, y) && Keeps(cs, y, z) { PriorityTransitive(tags, x, y, z); }
      }
    }
  }

  /** That is as far as it goes: a server that defines the first tag but lacks a later one
      makes a decided pair with some server that lacks it too, although neither of the two
      can be processed alone. */
  lemma {:induction false} PriorityUnlawful(tags: seq<int>, x: Server)
    requires !AllOrNotFirst(tags, x)
    ensures exists y: Server :: y.estim.Keys == x.estim.Keys && !PairOk((a, b) => PriorityCompare(tags, a, b), x, y)
  {
    var cs := (a, b) => PriorityCompare(tags, a, b);
    var t := Abs(tags[0]);
    var y := x.(estim := x.estim[t := x.estim[t] + 1.0]);
    LacksOne(tags, x);
    LacksOne(tags, y);
    assert Decide(tags[0], x, y).Decided? && !PriorityCompare(tags, x, y).Undefined?;
    assert !Usable(cs, x) && !Usable(cs, y);
    assert y.estim.Keys == x.estim.Keys;
  }

  lemma {:induction false} LacksOne(tags: seq<int>, x: Server)
    requires !DefinesAll(tags, x)
    ensures PriorityCompare(tags, x, x).Undefined?
  {
    if Has(x, Abs(tags[0])) {
      assert !DefinesAll(tags[1..], x) by {
        var k :| 0 <= k < |tags| && !Has(x, Abs(tags[k]));
        assert tags[1..][k - 1] == tags[k];
      }
      LacksOne(tags[1..], x);
    }
  }
}
