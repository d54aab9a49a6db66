/** What a client of the whole hierarchy gets, and what this means for the compare functions
    on estimations. */
module SearchResults {
  import opened Selection
  import opened StableMerge
  import opened Hierarchy
  import opened Estimates

  /** When every server daemon lists its usable servers in order, the client gets the best k
      of all servers in the tree, in order: `rest` are the others, none of them better. */
  lemma ClientGetsBest<S(!new)>(cs: ServerCompare<S>, dom: S -> bool, blank: S, k: nat, children: seq<Tree<S>>)
    returns (rest: seq<S>)
    requires LawfulOn(cs, dom) && Known(dom, ForestLists(children)) && dom(blank) && cs(blank, blank).Undefined?
    requires forall i :: 0 <= i < |ForestLists(children)| ==> Ordered(cs, Front(cs, ForestLists(children)[i]))
    ensures var got := Front(cs, Submit(cs, blank, k, children));
      && Ordered(cs, got) && (|got| == k || rest == [])
      && multiset(got) + multiset(rest) == AllServers(Fronts(cs, ForestLists(children)))
      && (forall x, y :: x in got && y in rest ==> Keeps(cs, x, y))
  {
    var lists := Fronts(cs, ForestLists(children));
    var merged := MergeAll(cs, lists);
    SubmitIsFlat(cs, dom, blank, k, children);
    FrontsGood(cs, dom, ForestLists(children));
    MergeAllOrdered(cs, dom, lists);
    MergeAllPermutes(cs, lists);
    var got := Take(k, merged);
    rest := merged[|got|..];
    assert merged == got + rest;
    forall x, y | x in got && y in rest ensures Keeps(cs, x, y) {
      var i :| 0 <= i < |got| && got[i] == x;
      var j :| 0 <= j < |rest| && rest[j] == y;
      assert merged[i] == x && merged[|got| + j] == y;
    }
  }

  /** An unfilled place of a response has no estimation at all. */
  const BLANK := Server("", map[])

  lemma PriorityClient(tags: seq<int>, k: nat, children: seq<Tree<Server>>) returns (rest: seq<Server>)
    requires tags != [] && Known(x => AllOrNotFirst(tags, x), ForestLists(children))
    requires var cs := (x, y) => PriorityCompare(tags, x, y);
      forall i :: 0 <= i < |ForestLists(children)| ==> Ordered(cs, Front(cs, ForestLists(children)[i]))
    ensures var cs := (x, y) => PriorityCompare(tags, x, y);
      var got := Front(cs, Submit(cs, BLANK, k, children));
      && Ordered(cs, got) && (|got| == k || rest == [])
      && multiset(got) + multiset(rest) == AllServers(Fronts(cs, ForestLists(children)))
      && (forall x, y :: x in got && y in rest ==> Keeps(cs, x, y))
      && (forall i, j :: 0 <= i < j < |got| ==> !Wins(tags, got[j], got[i]))
      && (forall x, y :: x in got && y in rest ==> !Wins(tags, y, x))
  {
    PriorityLaws(tags);
    var cs := (x, y) => PriorityCompare(tags, x, y);
    rest := ClientGetsBest(cs, x => AllOrNotFirst(tags, x), BLANK, k, children);
    NobodyWins(tags, cs, Front(cs, Submit(cs, BLANK, k, children)), rest);
  }

  lemma NobodyWins(tags: seq<int>, cs: ServerCompare<Server>, got: seq<Server>, rest: seq<Server>)
    requires forall x, y :: cs(x, y) == PriorityCompare(tags, x, y)
    requires Ordered(cs, got) && forall x, y :: x in got && y in rest ==> Keeps(cs, x, y)
    ensures forall i, j :: 0 <= i < j < |got| ==> !Wins(tags, got[j], got[i])
    ensures forall x, y :: x in got && y in rest ==> !Wins(tags, y, x)
  {
    forall x, y | Keeps(cs, x, y) ensures !Wins(tags, y, x) {
      PriorityMeaning(tags, x, y);
    }
  }

  /** RRScheduler_compare on positions: one position is compared with itself in its own way. */
  function RROnPositions(responses: seq<seq<Server>>, x: Node, y: Node): Verdict
    requires Valid(responses, x) && Valid(responses, y)
  {
    RRCompare(x == y, responses[x.resp][x.srv], responses[y.resp][y.srv])
  }

  /** On its own values it is the compare function on servers. Agents never run round robin
      alone; the module DefaultScheduler is about the pair that they run. */
  lemma RRAgrees(responses: seq<seq<Server>>, call: nat, x: Node, y: Node)
    requires Valid(responses, x) && Valid(responses, y) && Known(RRValue, responses)
    ensures RROnPositions(responses, x, y) == OnPositions(RR, responses)(call, x, y)
  {
    var s1, s2 := responses[x.resp][x.srv], responses[y.resp][y.srv];
    RRSelfCompare(s1);
    assert RRValue(s1) && RR(s1, s2) == RRCompare(false, s1, s2);
  }
}
