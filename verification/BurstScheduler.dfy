/** `burstRequest` of src/client/SpecificClientScheduler.cc: a round robin over the server
    daemons (SeDs) of the last response that stays balanced while SeDs join and leave. */
module BurstScheduler {
  import opened Common

  /** The entries of the vectors whose name is still in the response. */
  function KeepNames(names: seq<string>, response: seq<string>): seq<string> {
    if names == [] then []
    else
      var kept := KeepNames(names[..|names| - 1], response);
      if names[|names| - 1] in response then kept + [names[|names| - 1]] else kept
  }

  function KeepUse(names: seq<string>, use: seq<int>, response: seq<string>): seq<int>
    requires |use| == |names|
  {
    if names == [] then []
    else
      var n := |names| - 1;
      var kept := KeepUse(names[..n], use[..n], response);
      if names[n] in response then kept + [use[n]] else kept
  }

  /** The names of the response that are not known yet, each once, in order. */
  function Newcomers(names: seq<string>, response: seq<string>): seq<string> {
    if response == [] then []
    else
      var n := |response| - 1;
      var before := Newcomers(names, response[..n]);
      if response[n] in names + before then before else before + [response[n]]
  }

  lemma {:induction false} KeepFacts(names: seq<string>, use: seq<int>, response: seq<string>)
    requires |use| == |names| && Distinct(names)
    ensures |KeepNames(names, response)| == |KeepUse(names, use, response)|
    ensures Distinct(KeepNames(names, response))
    ensures forall x :: x in KeepNames(names, response) <==> x in names && x in response
    ensures forall k :: 0 <= k < |KeepNames(names, response)| ==>
      exists m :: 0 <= m < |names|
        && names[m] == KeepNames(names, response)[k] && use[m] == KeepUse(names, use, response)[k]
  {
    if names != [] {
      var n := |names| - 1;
      KeepFacts(names[..n], use[..n], response);
      var kept, keptUse := KeepNames(names[..n], response), KeepUse(names[..n], use[..n], response);
      forall k | 0 <= k < |kept|
        ensures exists m :: 0 <= m < |names| && names[m] == kept[k] && use[m] == keptUse[k]
      {
        var m :| 0 <= m < |names[..n]| && names[..n][m] == kept[k] && use[..n][m] == keptUse[k];
        assert names[m] == kept[k] && use[m] == keptUse[k];
      }
      assert names[n] !in names[..n];
    }
  }

  lemma {:induction false} NewcomerFacts(names: seq<string>, response: seq<string>)
    requires Distinct(names)
    ensures Distinct(names + Newcomers(names, response))
    ensures forall x :: x in Newcomers(names, response) <==> x in response && x !in names
  {
    if response != [] {
      var n := |response| - 1;
      NewcomerFacts(names, response[..n]);
      var before := Newcomers(names, response[..n]);
      assert names + (before + [response[n]]) == (names + before) + [response[n]];
    }
  }

  /** Where a name comes first. */
  function FirstAt(s: seq<string>, x: string): (n: nat)
    requires x in s
    ensures n < |s| && s[n] == x && x !in s[..n]
  {
    var last := |s| - 1;
    if x in s[..last] then FirstAt(s[..last], x) else last
  }

  /** New daemons come in the order in which the response names them first. */
  lemma {:induction false} NewcomersInOrder(names: seq<string>, response: seq<string>, i: nat, j: nat)
    requires Distinct(names) && i < j < |Newcomers(names, response)|
    ensures Newcomers(names, response)[i] in response && Newcomers(names, response)[j] in response
    ensures FirstAt(response, Newcomers(names, response)[i]) < FirstAt(response, Newcomers(names, response)[j])
  {
    var n := |response| - 1;
    var before := Newcomers(names, response[..n]);
    NewcomerFacts(names, response[..n]);
    if j < |before| {
      NewcomersInOrder(names, response[..n], i, j);
    } else {
      assert before[i] in response[..n] && response[n] !in response[..n];
    }
  }

  /** Known daemons keep their order. */
  lemma {:induction false} KeptInOrder(names: seq<string>, response: seq<string>, i: nat, j: nat)
    requires Distinct(names) && i < j < |KeepNames(names, response)|
    ensures KeepNames(names, response)[i] in names && KeepNames(names, response)[j] in names
    ensures FirstAt(names, KeepNames(names, response)[i]) < FirstAt(names, KeepNames(names, response)[j])
  {
    var n := |names| - 1;
    var kept := KeepNames(names[..n], response);
    KeepFacts(names[..n], Fill(n, 0), response);
    if j < |kept| {
      KeptInOrder(names[..n], response, i, j);
    } else {
      assert kept[i] in names[..n] && names[n] !in names[..n];
    }
  }

  function Fill(n: nat, v: int): (s: seq<int>)
    ensures |s| == n && forall k :: 0 <= k < n ==> s[k] == v
  {
    seq(n, k => v)
  }

  lemma {:induction false} KeepNext(names: seq<string>, use: seq<int>, response: seq<string>, seen: nat)
    requires |use| == |names| && seen < |names|
    ensures KeepNames(names[..seen + 1], response)
         == KeepNames(names[..seen], response) + (if names[seen] in response then [names[seen]] else [])
    ensures KeepUse(names[..seen + 1], use[..seen + 1], response)
         == KeepUse(names[..seen], use[..seen], response) + (if names[seen] in response then [use[seen]] else [])
  {
    assert names[..seen + 1][..seen] == names[..seen] && use[..seen + 1][..seen] == use[..seen];
  }

  /** vector::erase */
  function Erase<T>(s: seq<T>, i: nat): seq<T>
    requires i < |s|
  {
    s[..i] + s[i + 1..]
  }

  lemma EraseNext<T>(kept: seq<T>, rest: seq<T>, seen: nat)
    requires seen < |rest|
    ensures (kept + rest[seen..])[|kept|] == rest[seen]
    ensures Erase(kept + rest[seen..], |kept|) == kept + rest[seen + 1..]
    ensures kept + rest[seen..] == (kept + [rest[seen]]) + rest[seen + 1..]
  {
  }

  /** All counters are the last minimum or one above it. */
  ghost predicate Balanced(use: seq<int>, min: int) {
    forall k :: 0 <= k < |use| ==> min <= use[k] <= min + 1
  }

  /** The first of the least counters has gone up by one. */
  ghost predicate Used(before: seq<int>, i: nat, after: seq<int>)
    requires i < |before|
  {
    && (forall k :: 0 <= k < |before| ==> before[i] <= before[k])
    && (forall k :: 0 <= k < i ==> before[i] < before[k])
    && after == before[i := before[i] + 1]
  }

  class Burst {
    var availableSeDs: seq<string>
    var use: seq<int>
    var min: int

    ghost predicate Valid()
      reads this
    {
      |use| == |availableSeDs| && Distinct(availableSeDs) && Balanced(use, min)
    }

    constructor ()
      ensures Valid() && availableSeDs == []
    {
      availableSeDs, use, min := [], [], 0;
    }

    method RemoveObsolete(response: seq<string>)
      requires |use| == |availableSeDs|
      modifies this`availableSeDs, this`use
      ensures availableSeDs == KeepNames(old(availableSeDs), response)
      ensures use == KeepUse(old(availableSeDs), old(use), response)
    {
      var i := 0;
      ghost var names, uses, seen := availableSeDs, use, 0;
      ghost var kept, keptUse := [], [];
      while i < |availableSeDs|
        invariant seen <= |names| == |uses| && i == |kept| == |keptUse|
        invariant kept == KeepNames(names[..seen], response)
        invariant keptUse == KeepUse(names[..seen], uses[..seen], response)
        invariant availableSeDs == kept + names[seen..] && use == keptUse + uses[seen..]
        decreases |availableSeDs| - i
      {
        EraseNext(kept, names, seen);
        EraseNext(keptUse, uses, seen);
        KeepNext(names, uses, response, seen);
        if availableSeDs[i] !in response {
          availableSeDs := Erase(availableSeDs, i);
          use := Erase(use, i);
        } else {
          kept, keptUse := kept + [names[seen]], keptUse + [uses[seen]];
          i := i + 1;
        }
        seen := seen + 1;
      }
      assert names[..|names|] == names && uses[..|uses|] == uses;
    }

    method AddNew(response: seq<string>)
      modifies this`availableSeDs, this`use
      ensures availableSeDs == old(availableSeDs) + Newcomers(old(availableSeDs), response)
      ensures use == old(use) + Fill(|Newcomers(old(availableSeDs), response)|, min)
    {
      ghost var names, uses := availableSeDs, use;
      for ix := 0 to |response|
        invariant availableSeDs == names + Newcomers(names, response[..ix])
        invariant use == uses + Fill(|Newcomers(names, response[..ix])|, min)
      {
        assert response[..ix + 1][..ix] == response[..ix];
        if response[ix] !in availableSeDs {
          availableSeDs := availableSeDs + [response[ix]];
          use := use + [min];
        }
      }
      assert response[..|response|] == response;
    }

    /** The first of the least used SeDs. */
    method LeastUsed() returns (idx: nat)
      requires 0 < |use|
      modifies this`min
      ensures idx < |use| && min == use[idx]
      ensures (forall k :: 0 <= k < |use| ==> use[idx] <= use[k]) && forall k :: 0 <= k < idx ==> use[idx] < use[k]
    {
      min := use[0];
      idx := 0;
      for i := 1 to |use|
        invariant idx < i && min == use[idx]
        invariant (forall k :: 0 <= k < i ==> use[idx] <= use[k]) && forall k :: 0 <= k < idx ==> use[idx] < use[k]
      {
        if use[i] < min {
          idx := i;
          min := use[i];
        }
      }
    }

    /** `burstRequest`: after any sequence of calls the counters of the known SeDs, which are
        those of the last response, differ by at most one. */
    method BurstRequest(response: seq<string>) returns (chosen: string)
      requires Valid() && response != []
      modifies this
      ensures Valid()
      ensures forall x :: x in availableSeDs <==> x in response
      ensures chosen in response
      ensures var kept := KeepNames(old(availableSeDs), response);
        var names := kept + Newcomers(kept, response);
        var uses := KeepUse(old(availableSeDs), old(use), response) + Fill(|names| - |kept|, old(min));
        && availableSeDs == names && |uses| == |names|
        && exists i :: 0 <= i < |names| && chosen == names[i] && min == uses[i] && Used(uses, i, use)
    {
      Refresh(response);
      assert response[0] in availableSeDs;
      var idx := LeastUsed();
      ghost var uses := use;
      use := use[idx := use[idx] + 1];
      chosen := availableSeDs[idx];
      assert Used(uses, idx, use);
      assert chosen in availableSeDs;
    }

    /** Both vectors follow the response. */
    method Refresh(response: seq<string>)
      requires Valid()
      modifies this`availableSeDs, this`use
      ensures Valid() && forall x :: x in availableSeDs <==> x in response
      ensures var kept := KeepNames(old(availableSeDs), response);
        && availableSeDs == kept + Newcomers(kept, response)
        && use == KeepUse(old(availableSeDs), old(use), response) + Fill(|availableSeDs| - |kept|, min)
    {
      KeepFacts(availableSeDs, use, response);
      RemoveObsolete(response);
      NewcomerFacts(availableSeDs, response);
      assert Balanced(use, min);
      AddNew(response);
    }
  }

  /** What balance means for a caller: no SeD is ever two requests ahead of another one. */
  lemma BalancedSpread(use: seq<int>, min: int, i: int, j: int)
    requires Balanced(use, min) && 0 <= i < |use| && 0 <= j < |use|
    ensures use[i] - use[j] <= 1
  {
  }
}
