/** One request at one agent: src/agent/Request.cc with its users findServer, sendRequest and
    getResponse in src/agent/AgentImpl.cc. The methods are the sections run under the lock of
    the request; `held` says that the thread of findServer has it, so that no answer can come
    in. */
module Gather {
  import opened Common

  type ChildId = int

  /** What became of a request sent to a child: taken, or the child is gone and is removed from
      the service table, or it is not a known child, which changes nothing. */
  datatype Delivery = Taken | Gone | Unknown

  datatype Answer<R> = Answer(child: ChildId, response: R)

  ghost function Askers(answers: seq<Answer>): (ids: set<ChildId>)
    ensures forall a :: a in answers ==> a.child in ids
  {
    set a | a in answers :: a.child
  }

  lemma DistinctAskers(answers: seq<Answer>)
    requires forall i, j :: 0 <= i < j < |answers| ==> answers[i].child != answers[j].child
    ensures |Askers(answers)| == |answers|
  {
    if answers != [] {
      var n := |answers| - 1;
      DistinctAskers(answers[..n]);
      assert forall a :: a in answers <==> a in answers[..n] || a == answers[n];
      assert Askers(answers) == Askers(answers[..n]) + {answers[n].child};
    }
  }

  /** The children whose send ended in the given way. */
  ghost function Sent(children: seq<ChildId>, delivery: map<ChildId, Delivery>, d: Delivery): (ids: set<ChildId>)
    requires forall c :: c in children ==> c in delivery
    ensures forall c :: c in ids <==> c in children && delivery[c] == d
  {
    set c | c in children && delivery[c] == d
  }

  lemma SentOne(children: seq<ChildId>, delivery: map<ChildId, Delivery>, i: nat, d: Delivery)
    requires i < |children| && children[i] in delivery && forall c :: c in children ==> c in delivery
    ensures delivery[children[i]] == d ==>
      Sent(children[..i + 1], delivery, d) == Sent(children[..i], delivery, d) + {children[i]}
    ensures delivery[children[i]] != d ==> Sent(children[..i + 1], delivery, d) == Sent(children[..i], delivery, d)
  {
    assert children[..i + 1] == children[..i] + [children[i]];
  }

  lemma CountListed(children: seq<ChildId>, delivery: map<ChildId, Delivery>, joined: set<ChildId>,
                    left: set<ChildId>)
    requires forall c :: c in children ==> c in delivery && c !in joined
    requires forall c :: c in left ==> c in children && !delivery[c].Gone?
    ensures |(set c | c in children) - Sent(children, delivery, Gone) - left + joined| ==
      |Sent(children, delivery, Taken)| + |joined| + |Sent(children, delivery, Unknown)| - |left|
  {
    var taken, unknown := Sent(children, delivery, Taken), Sent(children, delivery, Unknown);
    var all := set c | c in children;
    forall c ensures c in all - Sent(children, delivery, Gone) <==> c in taken + unknown {
    }
    assert all - Sent(children, delivery, Gone) == taken + unknown;
    Disjoint(taken, unknown);
    forall c | c in left ensures c in taken + unknown {
    }
    Without(taken + unknown, left);
    Disjoint(taken + unknown - left, joined);
  }

  lemma Without(a: set<ChildId>, b: set<ChildId>)
    requires forall c :: c in b ==> c in a
    ensures |a - b| == |a| - |b|
  {
    forall c ensures c in (a - b) + b <==> c in a {
    }
    assert (a - b) + b == a;
    Disjoint(a - b, b);
  }

  lemma Disjoint(a: set<ChildId>, b: set<ChildId>)
    requires forall c :: c in a ==> c !in b
    ensures |a + b| == |a| + |b|
  {
    forall c ensures c !in a * b {
    }
    assert a * b == {};
    assert |a + b| + |a * b| == |a| + |b|;
  }

  lemma NextAsker(answers: seq<Answer>, i: nat, arrived: seq<Answer>)
    requires i < |answers| && arrived == answers[..i]
    requires forall k, l :: 0 <= k < l < |answers| ==> answers[k].child != answers[l].child
    ensures answers[i].child in Askers(answers) && answers[i].child !in Askers(arrived)
    ensures arrived + [Answer(answers[i].child, answers[i].response)] == answers[..i + 1]
  {
    assert answers[i] in answers;
  }

  class Request<R(0)> {
    var held: bool
    var waiting: bool
    var responses: array<R>
    var nbWaitedSonsResponse: int
    var signalled: bool
    ghost var contacted: set<ChildId>
    ghost var arrived: seq<Answer<R>>

    /** No answer is stored before the array exists; then the slots are filled from the end,
        one for each answer, and the signal is given when none is left. */
    ghost predicate Valid()
      reads this, responses
    {
      && !(held && waiting)
      && (forall i, j :: 0 <= i < j < |arrived| ==> arrived[i].child != arrived[j].child)
      && Askers(arrived) <= contacted
      && (if !waiting then arrived == [] && !signalled && responses.Length == 0
          else
            && responses.Length > 0
            && nbWaitedSonsResponse == responses.Length - |arrived| && 0 <= nbWaitedSonsResponse
            && (signalled <==> nbWaitedSonsResponse == 0)
            && (forall i :: 0 <= i < |arrived| ==> responses[responses.Length - 1 - i] == arrived[i].response))
    }

    /** findServer takes the lock. The count is not initialised: `any` is what happens to be
        there. An array without slots stands for the null pointer. */
    constructor (any: int)
      ensures Valid() && held && contacted == {} && fresh(responses)
    {
      held, waiting, signalled, nbWaitedSonsResponse := true, false, false, any;
      responses := new R[0];
      contacted, arrived := {}, [];
    }

    /** The sends of findServer. The table is not locked meanwhile: `joined` are the children
        that subscribe for the service, `left` the listed ones that unsubscribe or remove it;
        n is the number of children the table lists afterwards. */
    method Scatter(children: seq<ChildId>, delivery: map<ChildId, Delivery>, joined: set<ChildId>,
                   left: set<ChildId>) returns (n: nat)
      requires Valid() && held && contacted == {}
      requires Distinct(children)
      requires forall c :: c in children ==> c in delivery && c !in joined
      requires forall c :: c in left ==> c in children && !delivery[c].Gone?
      modifies this`contacted
      ensures Valid()
      ensures contacted == Sent(children, delivery, Taken)
      ensures n == |contacted| + |joined| + |Sent(children, delivery, Unknown)| - |left|
      ensures arrived == old(arrived)
    {
      var gone := {};
      for i := 0 to |children|
        invariant contacted == Sent(children[..i], delivery, Taken)
        invariant gone == Sent(children[..i], delivery, Gone)
      {
        var c := children[i];
        SentOne(children, delivery, i, Taken);
        SentOne(children, delivery, i, Gone);
        match delivery[c]
        case Taken => contacted := contacted + {c};
        case Gone => gone := gone + {c};
        case Unknown =>
      }
      assert children[..|children|] == children;
      n := |(set c | c in children) - gone - left + joined|;
      CountListed(children, delivery, joined, left);
    }

    /** waitResponses, up to the wait, which gives the lock free. */
    method WaitResponses(numberOfResponses: nat)
      requires Valid() && held && numberOfResponses > 0
      modifies this
      ensures Valid() && waiting && fresh(responses) && responses.Length == numberOfResponses
      ensures contacted == old(contacted) && arrived == old(arrived)
    {
      responses := new R[numberOfResponses];
      nbWaitedSonsResponse := numberOfResponses;
      waiting, held := true, false;
    }

    /** findServer returns at once when the table lists no child any more. */
    method ReturnEarly()
      requires Valid() && held
      modifies this`held
      ensures Valid() && !held
    {
      held := false;
    }

    /** addResponse, which getResponse calls under the lock; it is not `ok` when the assertion
        fails or there is no array to write to. */
    method AddResponse(child: ChildId, response: R) returns (ok: bool)
      requires Valid() && !held && child in contacted && child !in Askers(arrived)
      modifies this, responses
      ensures Valid() && !held && waiting == old(waiting)
      ensures responses == old(responses) && contacted == old(contacted)
      ensures ok <==> |old(arrived)| < responses.Length
      ensures arrived == if ok then old(arrived) + [Answer(child, response)] else old(arrived)
    {
      ok := nbWaitedSonsResponse > 0 && responses.Length > 0;
      if ok {
        nbWaitedSonsResponse := nbWaitedSonsResponse - 1;
        responses[nbWaitedSonsResponse] := response;
        arrived := arrived + [Answer(child, response)];
        if nbWaitedSonsResponse == 0 {
          signalled := true;
        }
      }
    }

    /** All contacted children answer, each once and in any order, until an answer fails.
        Some answer does iff more children were contacted than are waited for; a barrier that
        is waited at opens iff at least as many were, and then on the first answers. */
    method CollectAll(answers: seq<Answer<R>>) returns (ok: bool)
      requires Valid() && !held && arrived == []
      requires forall i, j :: 0 <= i < j < |answers| ==> answers[i].child != answers[j].child
      requires Askers(answers) == contacted
      modifies this, responses
      ensures Valid() && waiting == old(waiting)
      ensures responses == old(responses) && contacted == old(contacted)
      ensures |answers| == |contacted| && (ok <==> |answers| <= responses.Length)
      ensures signalled <==> waiting && responses.Length <= |answers|
      ensures arrived == if ok then answers else answers[..responses.Length]
    {
      DistinctAskers(answers);
      ok := true;
      var i := 0;
      while i < |answers| && ok
        invariant 0 <= i <= |answers| && Valid() && !held && waiting == old(waiting)
        invariant responses == old(responses) && contacted == old(contacted)
        invariant if ok then i <= responses.Length else responses.Length < i
        invariant arrived == answers[..if ok then i else responses.Length]
      {
        NextAsker(answers, i, arrived);
        ok := AddResponse(answers[i].child, answers[i].response);
        i := i + 1;
      }
    }

    /** The barrier opens when every contacted child has answered, exactly when findServer
        waited for as many answers as it has contacted children; then no answer is turned away
        and aggregation finds them all, in the reverse of the order in which they came. */
    lemma BarrierOpens()
      requires Valid() && waiting
      ensures |arrived| <= |contacted|
      ensures Askers(arrived) == contacted ==> (signalled <==> responses.Length == |contacted|)
      ensures responses.Length == |contacted| && Askers(arrived) != contacted ==>
        |arrived| < responses.Length && !signalled
      ensures signalled ==> |arrived| == responses.Length
      ensures signalled ==>
        forall i :: 0 <= i < responses.Length ==> responses[i] == arrived[|arrived| - 1 - i].response
    {
      DistinctAskers(arrived);
      assert contacted == Askers(arrived) + (contacted - Askers(arrived));
      assert Askers(arrived) != contacted ==> contacted - Askers(arrived) != {};
      if signalled {
        forall i | 0 <= i < responses.Length ensures responses[i] == arrived[|arrived| - 1 - i].response {
          var k := |arrived| - 1 - i;
          assert responses[responses.Length - 1 - k] == arrived[k].response;
        }
      }
    }

    /** getResponses, once the signal was given. */
    method GetResponses() returns (all: seq<R>)
      requires Valid() && signalled
      ensures |all| == responses.Length == |arrived|
      ensures forall i :: 0 <= i < |all| ==> all[i] == arrived[|all| - 1 - i].response
    {
      BarrierOpens();
      all := responses[..];
    }
  }

  /** findServer from the sends on, and the answers of all contacted children while the request
      is listed. n responses are waited for; when n is 0 the empty response is returned at
      once. `started` says that aggregation starts and `ok` that no answer fails. */
  method FindServer<R(0)>(children: seq<ChildId>, delivery: map<ChildId, Delivery>, joined: set<ChildId>,
                          left: set<ChildId>, answers: seq<Answer<R>>, any: int)
    returns (n: nat, started: bool, ok: bool, responses: seq<R>)
    requires Distinct(children)
    requires forall c :: c in children ==> c in delivery && c !in joined
    requires forall c :: c in left ==> c in children && !delivery[c].Gone?
    requires forall i, j :: 0 <= i < j < |answers| ==> answers[i].child != answers[j].child
    requires Askers(answers) == Sent(children, delivery, Taken)
    ensures n == |answers| + |joined| + |Sent(children, delivery, Unknown)| - |left|
    ensures ok <==> |left| <= |joined| + |Sent(children, delivery, Unknown)|
    ensures started <==> n > 0 && |left| >= |joined| + |Sent(children, delivery, Unknown)|
    ensures n == 0 ==> responses == [] && (ok <==> answers == [])
    ensures started ==> |responses| == n <= |answers|
    ensures started ==> forall i :: 0 <= i < n ==> responses[i] == answers[n - 1 - i].response
  {
    var req := new Request<R>(any);
    n := req.Scatter(children, delivery, joined, left);
    DistinctAskers(answers);
    if n == 0 {
      req.ReturnEarly();
    } else {
      req.WaitResponses(n);
    }
    ok := req.CollectAll(answers);
    started := req.signalled;
    responses := [];
    if started {
      responses := req.GetResponses();
    }
  }

  /** A child that subscribes while the others are asked: the barrier stays shut for ever. */
  method JoinedInstance(any: int) returns (n: nat, started: bool, ok: bool)
    ensures n == 2 && !started && ok
  {
    var responses: seq<int>;
    var answers := [Answer(1, 10)];
    assert Askers(answers) == {1} == Sent([1], map[1 := Taken], Taken);
    assert Sent([1], map[1 := Taken], Unknown) == {};
    n, started, ok, responses := FindServer([1], map[1 := Taken], {2}, {}, answers, any);
  }

  /** A child that leaves after it was asked: the other answer is aggregated alone, and its
      own one hits the assertion. */
  method LeftInstance(any: int) returns (n: nat, started: bool, ok: bool, responses: seq<int>)
    ensures n == 1 && started && !ok && responses == [10]
  {
    var delivery := map[1 := Taken, 2 := Taken];
    var answers := [Answer(1, 10), Answer(2, 20)];
    assert Askers(answers) == {1, 2} == Sent([1, 2], delivery, Taken) by {
      assert answers[0] in answers && answers[1] in answers;
    }
    assert Sent([1, 2], delivery, Unknown) == {};
    n, started, ok, responses := FindServer([1, 2], delivery, {}, {2}, answers, any);
  }

  /** The only child leaves after it was asked: the empty response is returned without a
      wait, and the child's answer finds no array, whatever the count happens to be. */
  method AllLeftInstance(any: int) returns (n: nat, started: bool, ok: bool, responses: seq<int>)
    ensures n == 0 && !started && !ok && responses == []
  {
    var answers := [Answer(1, 10)];
    assert Askers(answers) == {1} == Sent([1], map[1 := Taken], Taken);
    assert Sent([1], map[1 := Taken], Unknown) == {};
    n, started, ok, responses := FindServer([1], map[1 := Taken], {}, {1}, answers, any);
  }
}
