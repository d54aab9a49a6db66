/** The wait rules of src/client/CallAsyncMgr.cc. Every transition below is one section that
    the source runs under the writer lock, so a run is any sequence of transitions. Rules and
    their semaphores are known by a number instead of an address. */
module AsyncCalls {
  import opened Common

  datatype WaitOperator = SOLE | OR | AND | ANY | ALL

  /** STATUS_WAITING is never assigned by the manager. */
  datatype Status = DONE | RESOLVING | CANCEL | ERROR

  datatype Data = Data(st: Status, used: nat)

  datatype RuleElement = RuleElement(reqID: int, op: WaitOperator)

  datatype Rule = Rule(ruleElts: seq<RuleElement>, status: Status)

  /** caList, rulesIDs (entries of one key in insertion order), rulesConds (the semaphore
      counts) and the rules they lead to. */
  datatype State = State(caList: map<int, Data>, rulesIDs: map<int, seq<int>>,
                         rulesConds: map<int, nat>, rules: map<int, Rule>)

  const EMPTY := State(map[], map[], map[], map[])

  function Entries(s: State, reqID: int): seq<int> {
    if reqID in s.rulesIDs then s.rulesIDs[reqID] else []
  }

  // ---------------------------------------------------------------- what rules mean

  predicate Strict(op: WaitOperator) {
    op == AND || op == SOLE || op == ALL
  }

  predicate IsDone(caList: map<int, Data>, reqID: int) {
    reqID in caList && caList[reqID].st == DONE
  }

  /** The rules the client API builds: one operator throughout, SOLE for one request. */
  predicate WellMade(elts: seq<RuleElement>) {
    && (forall k :: 0 <= k < |elts| ==> elts[k].op == elts[0].op)
    && (elts != [] && elts[0].op == SOLE ==> |elts| == 1)
  }

  /** GFD-R.052: AND, ALL and SOLE wait for every request, OR and ANY for one of them. */
  predicate Satisfied(caList: map<int, Data>, elts: seq<RuleElement>) {
    if elts == [] || Strict(elts[0].op) then forall k :: 0 <= k < |elts| ==> IsDone(caList, elts[k].reqID)
    else exists k :: 0 <= k < |elts| && IsDone(caList, elts[k].reqID)
  }

  /** The test of notifyRst: no still registered request of a strict element is unfinished. */
  predicate Plenty(caList: map<int, Data>, elts: seq<RuleElement>) {
    forall k :: 0 <= k < |elts| && Strict(elts[k].op) && elts[k].reqID in caList ==> IsDone(caList, elts[k].reqID)
  }

  ghost predicate Mentions(elts: seq<RuleElement>, reqID: int) {
    exists k :: 0 <= k < |elts| && elts[k].reqID == reqID
  }

  // ---------------------------------------------------------------- transitions

  function AddCall(s: State, reqID: int): State {
    if reqID in s.caList then s else s.(caList := s.caList[reqID := Data(RESOLVING, 0)])
  }

  /** Sets the status of a rule and posts its semaphore. */
  function Post(s: State, r: int, status: Status): State {
    var t := if r in s.rules then s.(rules := s.rules[r := s.rules[r].(status := status)]) else s;
    if r in s.rulesConds then t.(rulesConds := t.rulesConds[r := t.rulesConds[r] + 1]) else t
  }

  /** Posts every listed rule; for DONE only those that have plenty. */
  function PostAll(s: State, entries: seq<int>, status: Status): (t: State)
    ensures t.caList == s.caList && t.rulesIDs == s.rulesIDs
    ensures t.rules.Keys == s.rules.Keys && t.rulesConds.Keys == s.rulesConds.Keys
  {
    if entries == [] then s
    else
      var before := PostAll(s, entries[..|entries| - 1], status);
      var r := entries[|entries| - 1];
      if status != DONE || (r in s.rules && Plenty(s.caList, s.rules[r].ruleElts)) then Post(before, r, status)
      else before
  }

  function Notify(s: State, reqID: int): State {
    if reqID !in s.caList then s
    else PostAll(s.(caList := s.caList[reqID := s.caList[reqID].(st := DONE)]), Entries(s, reqID), DONE)
  }

  function CancelCall(s: State, reqID: int): State {
    if reqID !in s.caList then s
    else
      var t := if s.caList[reqID].used != 0 then PostAll(s, Entries(s, reqID), CANCEL) else s;
      t.(caList := t.caList - {reqID})
  }

  /** Counts the rule for its first n requests. */
  function CountUse(caList: map<int, Data>, elts: seq<RuleElement>, n: nat): (c: map<int, Data>)
    requires n <= |elts| && forall k :: 0 <= k < n ==> elts[k].reqID in caList
    ensures c.Keys == caList.Keys
    ensures forall id :: id in c ==> c[id].st == caList[id].st && c[id].used >= caList[id].used
  {
    if n == 0 then caList
    else
      var before := CountUse(caList, elts, n - 1);
      var id := elts[n - 1].reqID;
      before[id := before[id].(used := before[id].used + 1)]
  }

  lemma {:induction false} CountedIsUsed(caList: map<int, Data>, elts: seq<RuleElement>, n: nat)
    requires n <= |elts| && forall k :: 0 <= k < n ==> elts[k].reqID in caList
    ensures forall k :: 0 <= k < n ==> CountUse(caList, elts, n)[elts[k].reqID].used > 0
  {
    if n > 0 { CountedIsUsed(caList, elts, n - 1); }
  }

  /** Number of leading elements whose request is registered. */
  function Registered(caList: map<int, Data>, elts: seq<RuleElement>): (n: nat)
    ensures n <= |elts| && forall k :: 0 <= k < n ==> elts[k].reqID in caList
    ensures n < |elts| ==> elts[n].reqID !in caList
  {
    if elts == [] || elts[0].reqID !in caList then 0 else 1 + Registered(caList, elts[1..])
  }

  /** What the checking loop of addWaitRule finds: nothing left to wait for. */
  predicate Ready(caList: map<int, Data>, elts: seq<RuleElement>) {
    || (forall k :: 0 <= k < |elts| && elts[k].reqID in caList ==> caList[elts[k].reqID].st != RESOLVING)
    || (exists k :: 0 <= k < |elts| && elts[k].op != ALL && elts[k].op != AND && IsDone(caList, elts[k].reqID))
  }

  function AddEntries(ids: map<int, seq<int>>, elts: seq<RuleElement>, r: int): (m: map<int, seq<int>>)
  {
    if elts == [] then ids
    else
      var before := AddEntries(ids, elts[..|elts| - 1], r);
      var id := elts[|elts| - 1].reqID;
      before[id := (if id in before then before[id] else []) + [r]]
  }

  datatype WaitOutcome = Immediate(status: Status) | Blocked

  /** First locked section of addWaitRule, for the new rule r. */
  function AddRule(s: State, r: int, elts: seq<RuleElement>): (State, WaitOutcome) {
    var n := Registered(s.caList, elts);
    var t := s.(caList := CountUse(s.caList, elts, n));
    if n < |elts| then (t, Immediate(ERROR))
    else if Ready(s.caList, elts) then (t, Immediate(DONE))
    else
      (t.(rulesIDs := AddEntries(s.rulesIDs, elts, r), rulesConds := s.rulesConds[r := 0],
          rules := s.rules[r := Rule(elts, RESOLVING)]), Blocked)
  }

  datatype Erasure = Hangs | Erased(ids: map<int, seq<int>>)

  /** The erasing loop of deleteWaitRule for one key: it goes on until find() meets no entry,
      but it only erases the entry found when that is one of rule r. */
  function EraseKey(ids: map<int, seq<int>>, id: int, r: int): Erasure
    decreases if id in ids then |ids[id]| else 0
  {
    if id !in ids || ids[id] == [] then Erased(ids - {id})
    else if ids[id][0] == r then EraseKey(ids[id := ids[id][1..]], id, r)
    else Hangs
  }

  function EraseRule(ids: map<int, seq<int>>, elts: seq<RuleElement>, r: int): Erasure {
    if elts == [] then Erased(ids)
    else
      match EraseRule(ids, elts[..|elts| - 1], r)
      case Hangs => Hangs
      case Erased(before) => EraseKey(before, elts[|elts| - 1].reqID, r)
  }

  // ---------------------------------------------------------------- invariant

  /** Rule r is registered and its semaphore has not been posted. */
  predicate Waiting(s: State, r: int) {
    r in s.rulesConds && s.rulesConds[r] == 0
  }

  ghost predicate RuleOk(s: State, r: int) {
    && r in s.rules && s.rules[r].ruleElts != [] && WellMade(s.rules[r].ruleElts)
    && (forall k :: 0 <= k < |s.rules[r].ruleElts| ==> r in Entries(s, s.rules[r].ruleElts[k].reqID))
    && (r in s.rulesConds && s.rulesConds[r] > 0 ==> s.rules[r].status == DONE || s.rules[r].status == CANCEL)
  }

  /** A rule that still waits is unsatisfied, and all its requests are registered and know
      that they are used. */
  ghost predicate WaitsRightly(s: State, r: int)
    requires r in s.rules
  {
    && (forall k :: 0 <= k < |s.rules[r].ruleElts| ==>
          var id := s.rules[r].ruleElts[k].reqID; id in s.caList && s.caList[id].used > 0)
    && !Satisfied(s.caList, s.rules[r].ruleElts)
  }

  ghost predicate Valid(s: State) {
    && (forall id :: id in s.caList ==> s.caList[id].st == RESOLVING || s.caList[id].st == DONE)
    && (forall r {:trigger RuleOk(s, r)} :: r in s.rulesConds ==> RuleOk(s, r))
    && (forall r :: Waiting(s, r) ==> r in s.rules && WaitsRightly(s, r))
    && (forall id, r :: r in Entries(s, id) ==> r in s.rulesConds && r in s.rules && Mentions(s.rules[r].ruleElts, id))
  }

  lemma EmptyValid()
    ensures Valid(EMPTY)
  {
  }

  /** Which rules a round of posts reaches, and what it leaves in them. */
  lemma {:induction false} PostAllEffect(s: State, entries: seq<int>, status: Status, r: int)
    requires r in s.rules && r in s.rulesConds
    ensures var t := PostAll(s, entries, status);
      var hit := r in entries && (status != DONE || Plenty(s.caList, s.rules[r].ruleElts));
      && t.rules[r].ruleElts == s.rules[r].ruleElts
      && t.rules[r].status == (if hit then status else s.rules[r].status)
      && t.rulesConds[r] >= s.rulesConds[r]
      && (t.rulesConds[r] > s.rulesConds[r] <==> hit)
  {
    if entries != [] {
      var n := |entries| - 1;
      PostAllEffect(s, entries[..n], status, r);
      assert r in entries <==> r in entries[..n] || r == entries[n];
    }
  }

  /** A rule of the API that has no plenty is unsatisfied, and an OR or ANY rule has plenty. */
  lemma NoPlentyUnsatisfied(caList: map<int, Data>, elts: seq<RuleElement>)
    requires WellMade(elts) && elts != []
    ensures !Plenty(caList, elts) ==> Strict(elts[0].op) && !Satisfied(caList, elts)
  {
  }

  lemma WaitersHaveCalls(s: State, r: int)
    requires Valid(s) && Waiting(s, r)
    ensures r in s.rules && s.rules[r].ruleElts != [] && s.rules[r].ruleElts[0].reqID in s.caList
  {
    assert RuleOk(s, r) && WaitsRightly(s, r);
  }

  lemma AddCallKeepsValid(s: State, reqID: int)
    requires Valid(s)
    ensures Valid(AddCall(s, reqID))
  {
    var t := AddCall(s, reqID);
    forall r | r in t.rulesConds ensures RuleOk(t, r) {
      assert RuleOk(s, r);
    }
    forall r | Waiting(t, r) ensures r in t.rules && WaitsRightly(t, r) {
      assert Waiting(s, r) && WaitsRightly(s, r);
    }
    forall id, r | r in Entries(t, id) ensures r in t.rulesConds && r in t.rules && Mentions(t.rules[r].ruleElts, id) {
      assert r in Entries(s, id);
    }
  }

  /** Completing a request keeps every unposted rule rightly waiting: no wake-up is lost. */
  lemma NotifyKeepsValid(s: State, reqID: int)
    requires Valid(s)
    ensures Valid(Notify(s, reqID))
  {
    var t := Notify(s, reqID);
    if reqID in s.caList {
      forall r | r in s.rulesConds
        ensures r in t.rules && t.rules[r].ruleElts == s.rules[r].ruleElts && RuleOk(t, r)
        ensures t.rulesConds[r] == 0 ==> WaitsRightly(t, r)
      {
        NotifiedRule(s, reqID, r);
      }
      EntriesKept(s, t);
    }
  }

  lemma NotifiedRule(s: State, reqID: int, r: int)
    requires Valid(s) && reqID in s.caList && r in s.rulesConds
    ensures r in s.rules && r in Notify(s, reqID).rules
    ensures Notify(s, reqID).rules[r].ruleElts == s.rules[r].ruleElts && RuleOk(Notify(s, reqID), r)
    ensures Notify(s, reqID).rulesConds[r] == 0 ==> WaitsRightly(Notify(s, reqID), r)
  {
    assert RuleOk(s, r);
    var u := s.(caList := s.caList[reqID := s.caList[reqID].(st := DONE)]);
    var elts := s.rules[r].ruleElts;
    PostAllEffect(u, Entries(s, reqID), DONE, r);
    if Waiting(s, r) {
      assert WaitsRightly(s, r);
      NoPlentyUnsatisfied(u.caList, elts);
      if r !in Entries(s, reqID) {
        assert forall k :: 0 <= k < |elts| ==> elts[k].reqID != reqID;
        assert forall k :: 0 <= k < |elts| ==> (IsDone(u.caList, elts[k].reqID) <==> IsDone(s.caList, elts[k].reqID));
      }
    }
  }

  lemma EntriesKept(s: State, t: State)
    requires Valid(s) && t.rulesIDs == s.rulesIDs && t.rulesConds.Keys == s.rulesConds.Keys
    requires forall r :: r in s.rulesConds ==>
      r in s.rules && r in t.rules && t.rules[r].ruleElts == s.rules[r].ruleElts
    ensures forall id, r :: r in Entries(t, id) ==>
      r in t.rulesConds && r in t.rules && Mentions(t.rules[r].ruleElts, id)
  {
    forall id, r | r in Entries(t, id) ensures r in t.rulesConds && r in t.rules && Mentions(t.rules[r].ruleElts, id) {
      assert r in Entries(s, id) && Mentions(s.rules[r].ruleElts, id);
    }
  }

  /** After a cancellation every registered rule about the request has been posted: `used`
      is positive whenever an unposted rule mentions it. */
  lemma CancelWakesAll(s: State, reqID: int)
    requires Valid(s) && reqID in s.caList
    ensures var t := CancelCall(s, reqID);
      && Valid(t) && reqID !in t.caList
      && (forall r :: r in t.rulesConds ==>
            r in t.rules && (Mentions(t.rules[r].ruleElts, reqID) ==> t.rulesConds[r] > 0))
      && (forall r :: Waiting(s, r) ==>
            r in s.rules && r in t.rules && (Mentions(s.rules[r].ruleElts, reqID) ==> t.rules[r].status == CANCEL))
  {
    var t := CancelCall(s, reqID);
    forall r | r in s.rulesConds
      ensures r in t.rules && t.rules[r].ruleElts == s.rules[r].ruleElts && RuleOk(t, r)
      ensures Mentions(s.rules[r].ruleElts, reqID) ==> t.rulesConds[r] > 0
      ensures Waiting(s, r) && Mentions(s.rules[r].ruleElts, reqID) ==> t.rules[r].status == CANCEL
      ensures t.rulesConds[r] == 0 ==> WaitsRightly(t, r)
    {
      CancelledRule(s, reqID, r);
    }
    EntriesKept(s, t);
  }

  lemma CancelledRule(s: State, reqID: int, r: int)
    requires Valid(s) && reqID in s.caList && r in s.rulesConds
    ensures r in s.rules && r in CancelCall(s, reqID).rules
    ensures var t := CancelCall(s, reqID);
      && t.rules[r].ruleElts == s.rules[r].ruleElts && RuleOk(t, r)
      && (Mentions(s.rules[r].ruleElts, reqID) ==> t.rulesConds[r] > 0)
      && (Waiting(s, r) && Mentions(s.rules[r].ruleElts, reqID) ==> t.rules[r].status == CANCEL)
      && (t.rulesConds[r] == 0 ==> WaitsRightly(t, r))
  {
    assert RuleOk(s, r);
    PostAllEffect(s, Entries(s, reqID), CANCEL, r);
    var elts := s.rules[r].ruleElts;
    if Waiting(s, r) {
      assert WaitsRightly(s, r);
      if Mentions(s.rules[r].ruleElts, reqID) {
        var k :| 0 <= k < |elts| && elts[k].reqID == reqID;
        assert r in Entries(s, reqID) && s.caList[reqID].used > 0;
      } else {
        var c := s.caList - {reqID};
        assert forall k :: 0 <= k < |elts| ==> elts[k].reqID != reqID;
        assert forall k :: 0 <= k < |elts| ==> (IsDone(c, elts[k].reqID) <==> IsDone(s.caList, elts[k].reqID));
      }
    }
  }

  lemma {:induction false} AddEntriesEffect(ids: map<int, seq<int>>, elts: seq<RuleElement>, r: int, id: int)
    ensures var m := AddEntries(ids, elts, r);
      var before, after := if id in ids then ids[id] else [], if id in m then m[id] else [];
      && (forall q :: q in before ==> q in after)
      && (forall q :: q in after ==> q in before || q == r)
      && (r in after <==> r in before || exists k :: 0 <= k < |elts| && elts[k].reqID == id)
  {
    if elts != [] {
      var n := |elts| - 1;
      AddEntriesEffect(ids, elts[..n], r, id);
      if k :| 0 <= k < n && elts[k].reqID == id {
        assert elts[..n][k].reqID == id;
      }
    }
  }

  /** A new rule either returns at once or is registered while it is unsatisfied. */
  lemma AddRuleKeepsValid(s: State, r: int, elts: seq<RuleElement>)
    requires Valid(s) && WellMade(elts) && r !in s.rules && r !in s.rulesConds
    ensures Valid(AddRule(s, r, elts).0)
    ensures AddRule(s, r, elts).1 == Immediate(DONE) ==> Satisfied(s.caList, elts)
    ensures AddRule(s, r, elts).1 == Blocked ==> Waiting(AddRule(s, r, elts).0, r) && !Satisfied(s.caList, elts)
    ensures AddRule(s, r, elts).1 == Immediate(ERROR) ==> exists k :: 0 <= k < |elts| && elts[k].reqID !in s.caList
  {
    var (t, outcome) := AddRule(s, r, elts);
    if outcome != Immediate(ERROR) { ReadyMeansSatisfied(s, elts); }
    forall q | q in t.rulesConds ensures RuleOk(t, q) {
      RuleOkAfterAdd(s, r, elts, q);
    }
    forall id, q | q in Entries(t, id) ensures q in t.rulesConds && q in t.rules && Mentions(t.rules[q].ruleElts, id) {
      EntryAfterAdd(s, r, elts, id, q);
    }
    forall q | Waiting(t, q) ensures q in t.rules && WaitsRightly(t, q) {
      WaitsAfterAdd(s, r, elts, q);
    }
  }

  lemma WaitsAfterAdd(s: State, r: int, elts: seq<RuleElement>, q: int)
    requires Valid(s) && WellMade(elts) && r !in s.rules && r !in s.rulesConds
    requires Waiting(AddRule(s, r, elts).0, q)
    ensures q in AddRule(s, r, elts).0.rules && WaitsRightly(AddRule(s, r, elts).0, q)
  {
    if q != r { OldRuleWaits(s, r, elts, q); } else { NewRuleWaits(s, r, elts); }
  }

  lemma OldRuleWaits(s: State, r: int, elts: seq<RuleElement>, q: int)
    requires Valid(s) && q != r && Waiting(s, q)
    ensures q in AddRule(s, r, elts).0.rules && WaitsRightly(AddRule(s, r, elts).0, q)
  {
    assert WaitsRightly(s, q) && RuleOk(s, q);
    SameStatuses(s.caList, AddRule(s, r, elts).0.caList, s.rules[q].ruleElts);
  }

  lemma NewRuleWaits(s: State, r: int, elts: seq<RuleElement>)
    requires Valid(s) && WellMade(elts) && r !in s.rulesConds && Waiting(AddRule(s, r, elts).0, r)
    ensures r in AddRule(s, r, elts).0.rules && WaitsRightly(AddRule(s, r, elts).0, r)
  {
    ReadyMeansSatisfied(s, elts);
    SameStatuses(s.caList, AddRule(s, r, elts).0.caList, elts);
    CountedIsUsed(s.caList, elts, |elts|);
  }

  lemma RuleOkAfterAdd(s: State, r: int, elts: seq<RuleElement>, q: int)
    requires Valid(s) && WellMade(elts) && r !in s.rules && r !in s.rulesConds
    requires q in AddRule(s, r, elts).0.rulesConds
    ensures RuleOk(AddRule(s, r, elts).0, q)
  {
    var t := AddRule(s, r, elts).0;
    assert q != r ==> RuleOk(s, q);
    var own := if q == r then elts else s.rules[q].ruleElts;
    forall k | 0 <= k < |own| ensures q in Entries(t, own[k].reqID) {
      AddEntriesEffect(s.rulesIDs, elts, r, own[k].reqID);
    }
  }

  lemma EntryAfterAdd(s: State, r: int, elts: seq<RuleElement>, id: int, q: int)
    requires Valid(s) && r !in s.rules && r !in s.rulesConds
    requires q in Entries(AddRule(s, r, elts).0, id)
    ensures var t := AddRule(s, r, elts).0; q in t.rulesConds && q in t.rules && Mentions(t.rules[q].ruleElts, id)
  {
    AddEntriesEffect(s.rulesIDs, elts, r, id);
    if q in Entries(s, id) {
      assert q in s.rulesConds && Mentions(s.rules[q].ruleElts, id);
    }
  }

  lemma SameStatuses(c: map<int, Data>, d: map<int, Data>, elts: seq<RuleElement>)
    requires c.Keys == d.Keys && forall id :: id in c ==> c[id].st == d[id].st
    ensures Satisfied(c, elts) <==> Satisfied(d, elts)
  {
    assert forall k :: 0 <= k < |elts| ==> (IsDone(c, elts[k].reqID) <==> IsDone(d, elts[k].reqID));
  }

  lemma ReadyMeansSatisfied(s: State, elts: seq<RuleElement>)
    requires Valid(s) && WellMade(elts) && forall k :: 0 <= k < |elts| ==> elts[k].reqID in s.caList
    ensures Ready(s.caList, elts) <==> Satisfied(s.caList, elts)
  {
    if elts != [] && !Strict(elts[0].op) && Ready(s.caList, elts) {
      assert IsDone(s.caList, elts[0].reqID) || exists k :: 0 <= k < |elts| && IsDone(s.caList, elts[k].reqID);
    }
  }

  // ---------------------------------------------------------------- waking up

  ghost predicate OnlyRule(ids: map<int, seq<int>>, id: int, r: int) {
    id in ids ==> forall q :: q in ids[id] ==> q == r
  }

  lemma {:induction false} EraseKeyEffect(ids: map<int, seq<int>>, id: int, r: int)
    ensures EraseKey(ids, id, r) == if OnlyRule(ids, id, r) then Erased(ids - {id}) else Hangs
    decreases if id in ids then |ids[id]| else 0
  {
    if id in ids && ids[id] != [] && ids[id][0] == r {
      var shorter := ids[id := ids[id][1..]];
      EraseKeyEffect(shorter, id, r);
      assert shorter - {id} == ids - {id};
      assert ids[id] == [r] + ids[id][1..];
      assert forall q :: q in ids[id] <==> q == r || q in shorter[id];
      assert OnlyRule(ids, id, r) <==> OnlyRule(shorter, id, r);
    } else if id in ids && ids[id] != [] {
      assert ids[id][0] in ids[id];
    }
  }

  ghost function Keys(elts: seq<RuleElement>): set<int> {
    set k | 0 <= k < |elts| :: elts[k].reqID
  }

  /** deleteWaitRule ends iff no other rule shares a request with this one; then it removes
      exactly the entries of this rule's requests. */
  lemma {:induction false} DeleteWaitRuleEnds(ids: map<int, seq<int>>, elts: seq<RuleElement>, r: int)
    ensures EraseRule(ids, elts, r) ==
      if forall k :: 0 <= k < |elts| ==> OnlyRule(ids, elts[k].reqID, r) then Erased(ids - Keys(elts)) else Hangs
  {
    if elts == [] {
      assert ids - {} == ids;
    } else {
      var n := |elts| - 1;
      DeleteWaitRuleEnds(ids, elts[..n], r);
      assert forall k :: 0 <= k < n ==> elts[..n][k] == elts[k];
      var before := ids - Keys(elts[..n]);
      EraseKeyEffect(before, elts[n].reqID, r);
      assert Keys(elts) == Keys(elts[..n]) + {elts[n].reqID};
      assert before - {elts[n].reqID} == ids - Keys(elts);
      if elts[n].reqID !in before && elts[n].reqID in ids {
        var k :| 0 <= k < n && elts[..n][k].reqID == elts[n].reqID;
      }
    }
  }

  /** Second locked section of addWaitRule, once the semaphore of r was posted. */
  datatype WakeResult = Stuck | Woken(state: State, status: Status)

  function Wake(s: State, r: int): WakeResult
    requires r in s.rules
  {
    match EraseRule(s.rulesIDs, s.rules[r].ruleElts, r)
    case Hangs => Stuck
    case Erased(ids) =>
      Woken(s.(rulesIDs := ids, rulesConds := s.rulesConds - {r}, rules := s.rules - {r}), s.rules[r].status)
  }

  lemma WakeKeepsValid(s: State, r: int)
    requires Valid(s) && r in s.rulesConds && s.rulesConds[r] > 0
    ensures r in s.rules && (Wake(s, r).Stuck? <==>
      exists k, q :: 0 <= k < |s.rules[r].ruleElts| && q in Entries(s, s.rules[r].ruleElts[k].reqID) && q != r)
    ensures Wake(s, r).Woken? ==> Valid(Wake(s, r).state) && (Wake(s, r).status == DONE || Wake(s, r).status == CANCEL)
  {
    assert RuleOk(s, r);
    var elts := s.rules[r].ruleElts;
    DeleteWaitRuleEnds(s.rulesIDs, elts, r);
    forall k | 0 <= k < |elts|
      ensures OnlyRule(s.rulesIDs, elts[k].reqID, r) <==> forall q :: q in Entries(s, elts[k].reqID) ==> q == r
    {
    }
    if Wake(s, r).Woken? {
      var t := Wake(s, r).state;
      forall q | q in t.rulesConds ensures RuleOk(t, q) {
        assert RuleOk(s, q);
        forall k | 0 <= k < |s.rules[q].ruleElts| ensures q in Entries(t, s.rules[q].ruleElts[k].reqID) {
          var id := s.rules[q].ruleElts[k].reqID;
          assert q in Entries(s, id);
          assert id !in Keys(elts);
        }
      }
      forall q | Waiting(t, q) ensures q in t.rules && WaitsRightly(t, q) {
        assert Waiting(s, q) && WaitsRightly(s, q);
      }
      forall id, q | q in Entries(t, id)
        ensures q in t.rulesConds && q in t.rules && Mentions(t.rules[q].ruleElts, id)
      {
        assert q in Entries(s, id) && id !in Keys(elts);
        assert forall k :: 0 <= k < |elts| ==> elts[k].reqID in Keys(elts);
      }
    }
  }

  // ---------------------------------------------------------------- what the posts say

  /** A rule that becomes DONE had no unfinished registered request left to wait for. */
  lemma DoneMeansPlenty(s: State, reqID: int, r: int)
    requires Valid(s) && r in s.rulesConds
    ensures r in s.rules && r in Notify(s, reqID).rules
    ensures Notify(s, reqID).rulesConds[r] > s.rulesConds[r] <==>
      reqID in s.caList && Mentions(s.rules[r].ruleElts, reqID) && Plenty(Notify(s, reqID).caList, s.rules[r].ruleElts)
    ensures Notify(s, reqID).rulesConds[r] > s.rulesConds[r] ==> Notify(s, reqID).rules[r].status == DONE
    ensures Waiting(s, r) && Notify(s, reqID).rulesConds[r] > 0 ==>
      Satisfied(Notify(s, reqID).caList, s.rules[r].ruleElts)
  {
    assert RuleOk(s, r);
    if reqID in s.caList {
      var u := s.(caList := s.caList[reqID := s.caList[reqID].(st := DONE)]);
      PostAllEffect(u, Entries(s, reqID), DONE, r);
      if r in Entries(s, reqID) {
        assert Mentions(s.rules[r].ruleElts, reqID);
        var k :| 0 <= k < |s.rules[r].ruleElts| && s.rules[r].ruleElts[k].reqID == reqID;
        assert IsDone(u.caList, s.rules[r].ruleElts[k].reqID);
      }
      if Waiting(s, r) { assert WaitsRightly(s, r); }
    }
  }

  /** The manual promises STATUS_CANCEL to a rule one of whose requests is cancelled. A
      notification that comes before the waiter runs overrides it, exactly when it is about
      the rule and finds no other registered strict request unfinished. */
  lemma CancelOverridden(s: State, cancelled: int, notified: int, r: int)
    requires Valid(s) && Waiting(s, r) && r in s.rules && Mentions(s.rules[r].ruleElts, cancelled)
    ensures var t := CancelCall(s, cancelled); var u := Notify(t, notified);
      && r in t.rules && t.rules[r].status == CANCEL
      && (u.rules[r].status == DONE <==>
            && Mentions(s.rules[r].ruleElts, notified) && notified in s.caList && notified != cancelled
            && Plenty(s.caList[notified := Data(DONE, 0)] - {cancelled}, s.rules[r].ruleElts))
  {
    assert RuleOk(s, r) && WaitsRightly(s, r);
    assert cancelled in s.caList;
    CancelWakesAll(s, cancelled);
    CancelledRule(s, cancelled, r);
    var t := CancelCall(s, cancelled);
    assert t.caList == s.caList - {cancelled};
    assert t.rules[r].ruleElts == s.rules[r].ruleElts;
    NotifyAfterCancel(t, notified, r);
    if notified in t.caList {
      assert notified in s.caList && notified != cancelled;
      var c, d := Notify(t, notified).caList, s.caList[notified := Data(DONE, 0)] - {cancelled};
      assert c == t.caList[notified := t.caList[notified].(st := DONE)];
      SamePlenty(c, d, s.rules[r].ruleElts);
      assert Plenty(c, s.rules[r].ruleElts) <==> Plenty(d, s.rules[r].ruleElts);
    }
  }

  lemma NotifyAfterCancel(t: State, notified: int, r: int)
    requires Valid(t) && r in t.rulesConds && r in t.rules && t.rules[r].status == CANCEL
    ensures r in Notify(t, notified).rules
    ensures Notify(t, notified).rules[r].status == DONE <==>
      notified in t.caList && Mentions(t.rules[r].ruleElts, notified)
      && Plenty(Notify(t, notified).caList, t.rules[r].ruleElts)
  {
    DoneMeansPlenty(t, notified, r);
    if notified in t.caList { UnpostedKeepsStatus(t, notified, r); }
  }

  lemma SamePlenty(c: map<int, Data>, d: map<int, Data>, elts: seq<RuleElement>)
    requires forall id :: (id in c <==> id in d) && (IsDone(c, id) <==> IsDone(d, id))
    ensures Plenty(c, elts) <==> Plenty(d, elts)
  {
  }

  lemma UnpostedKeepsStatus(s: State, reqID: int, r: int)
    requires reqID in s.caList && r in s.rules && r in s.rulesConds
    ensures Notify(s, reqID).rules[r].ruleElts == s.rules[r].ruleElts
    ensures Notify(s, reqID).rulesConds[r] >= s.rulesConds[r]
    ensures Notify(s, reqID).rulesConds[r] == s.rulesConds[r] ==>
      Notify(s, reqID).rules[r].status == s.rules[r].status
  {
    var u := s.(caList := s.caList[reqID := s.caList[reqID].(st := DONE)]);
    PostAllEffect(u, Entries(s, reqID), DONE, r);
  }

  /** A wait for two requests that ends as DONE although one of them was cancelled. */
  lemma CancelledWaitReturnsDone()
    ensures var s := AddRule(AddCall(AddCall(EMPTY, 1), 2), 7, [RuleElement(1, AND), RuleElement(2, AND)]).0;
      var t := Notify(CancelCall(s, 1), 2);
      7 in t.rules && Wake(t, 7).Woken? && Wake(t, 7).status == DONE
  {
    var s := TwoRequests([RuleElement(1, AND), RuleElement(2, AND)]);
    OneCancelledOneDone(s, 7);
  }

  lemma OneCancelledOneDone(s: State, r: int)
    requires Valid(s) && Waiting(s, r) && s.rulesConds.Keys == {r} && r in s.rules
    requires s.rules[r].ruleElts == [RuleElement(1, AND), RuleElement(2, AND)] && 1 in s.caList && 2 in s.caList
    ensures var t := Notify(CancelCall(s, 1), 2);
      r in t.rules && Wake(t, r).Woken? && Wake(t, r).status == DONE
  {
    var elts := s.rules[r].ruleElts;
    assert elts[0].reqID == 1 && elts[1].reqID == 2;
    assert Mentions(elts, 1) && Mentions(elts, 2);
    CancelOverridden(s, 1, 2, r);
    var c := CancelCall(s, 1);
    CancelWakesAll(s, 1);
    NotifyKeepsValid(c, 2);
    DoneMeansPlenty(c, 2, r);
    UnpostedKeepsStatus(c, 2, r);
    OnlyRuleWakes(Notify(c, 2), r);
  }

  lemma OnlyRuleWakes(t: State, r: int)
    requires Valid(t) && t.rulesConds.Keys == {r} && t.rulesConds[r] > 0
    ensures r in t.rules && Wake(t, r).Woken? && Wake(t, r).status == t.rules[r].status
  {
    WakeKeepsValid(t, r);
    forall id, q | q in Entries(t, id) ensures q == r {
      assert q in t.rulesConds.Keys;
    }
  }

  lemma TwoRequests(elts: seq<RuleElement>) returns (s: State)
    requires elts == [RuleElement(1, AND), RuleElement(2, AND)]
    ensures s == AddRule(AddCall(AddCall(EMPTY, 1), 2), 7, elts).0
    ensures Valid(s) && Waiting(s, 7) && s.rulesConds.Keys == {7} && 7 in s.rules
    ensures s.rules[7].ruleElts == elts && 1 in s.caList && 2 in s.caList
    ensures Mentions(s.rules[7].ruleElts, 1) && Mentions(s.rules[7].ruleElts, 2)
  {
    var s0 := AddCall(AddCall(EMPTY, 1), 2);
    EmptyValid();
    AddCallKeepsValid(EMPTY, 1);
    AddCallKeepsValid(AddCall(EMPTY, 1), 2);
    assert elts[0].reqID == 1 && elts[1].reqID == 2;
    var n := Registered(s0.caList, elts);
    assert n == 2;
    assert !IsDone(s0.caList, elts[0].reqID);
    ReadyMeansSatisfied(s0, elts);
    AddRuleKeepsValid(s0, 7, elts);
    s := AddRule(s0, 7, elts).0;
    assert s.rules[7].ruleElts[0].reqID == 1 && s.rules[7].ruleElts[1].reqID == 2;
  }

  /** Waiting for one unfinished request blocks. */
  lemma SoleRuleBlocks(s: State, id: int, r: int, elts: seq<RuleElement>)
    requires Valid(s) && id in s.caList && s.caList[id].st == RESOLVING && r !in s.rules && r !in s.rulesConds
    requires elts == [RuleElement(id, SOLE)]
    ensures var t := AddRule(s, r, elts).0;
      && Valid(t) && id in t.caList && t.caList[id].st == RESOLVING
      && t.rules == s.rules[r := Rule(elts, RESOLVING)] && t.rulesConds == s.rulesConds[r := 0]
  {
    assert elts[0].reqID == id && Registered(s.caList, elts) == 1;
    assert !IsDone(s.caList, elts[0].reqID);
    AddRuleKeepsValid(s, r, elts);
  }

  /** Two threads wait for the same request. Its completion wakes both, and then neither can
      remove its rule: the loop of deleteWaitRule never ends. */
  lemma TwoWaitersHang()
    ensures var elts := [RuleElement(1, SOLE)];
      var t := Notify(AddRule(AddRule(AddCall(EMPTY, 1), 7, elts).0, 8, elts).0, 1);
      && Valid(t) && 7 in t.rules && 8 in t.rules && 7 in t.rulesConds && 8 in t.rulesConds
      && t.rulesConds[7] > 0 && t.rulesConds[8] > 0
      && Wake(t, 7).Stuck? && Wake(t, 8).Stuck?
  {
    var elts, s0 := [RuleElement(1, SOLE)], AddCall(EMPTY, 1);
    EmptyValid();
    AddCallKeepsValid(EMPTY, 1);
    SoleRuleBlocks(s0, 1, 7, elts);
    var s1 := AddRule(s0, 7, elts).0;
    SoleRuleBlocks(s1, 1, 8, elts);
    var s := AddRule(s1, 8, elts).0;
    NotifyKeepsValid(s, 1);
    PostedTogether(s, 1, 7, elts);
    PostedTogether(s, 1, 8, elts);
    SharedRequestHangs(Notify(s, 1), 1, 7, 8, elts);
    SharedRequestHangs(Notify(s, 1), 1, 8, 7, elts);
  }

  lemma PostedTogether(s: State, id: int, r: int, elts: seq<RuleElement>)
    requires Valid(s) && id in s.caList && Waiting(s, r) && r in s.rules
    requires s.rules[r].ruleElts == elts == [RuleElement(id, SOLE)]
    ensures var t := Notify(s, id);
      r in t.rules && r in t.rulesConds && t.rulesConds[r] > 0 && t.rules[r].ruleElts == elts
  {
    assert RuleOk(s, r) && elts[0].reqID == id;
    UnpostedKeepsStatus(s, id, r);
    DoneMeansPlenty(s, id, r);
    assert Mentions(elts, id);
  }

  lemma SharedRequestHangs(t: State, id: int, r: int, q: int, elts: seq<RuleElement>)
    requires Valid(t) && r != q && r in t.rulesConds && t.rulesConds[r] > 0 && q in t.rulesConds
    requires r in t.rules && t.rules[r].ruleElts == elts && q in t.rules && t.rules[q].ruleElts == elts
    requires elts == [RuleElement(id, SOLE)]
    ensures Wake(t, r).Stuck?
  {
    assert RuleOk(t, q) && elts[0].reqID == id;
    assert q in Entries(t, t.rules[q].ruleElts[0].reqID);
    WakeKeepsValid(t, r);
  }

  // ---------------------------------------------------------------- runs

  /** The sections that threads run under the lock: registering a request, the two sections of
      waiting for a rule, completing a request and cancelling it. */
  datatype Step =
    | Registers(reqID: int)
    | Waits(r: int, elts: seq<RuleElement>)
    | Wakes(r: int)
    | Completes(reqID: int)
    | Cancels(reqID: int)

  /** A rule comes under a new number; its waiter passes the semaphore once it was posted.
      A waiter that is stuck keeps the lock, so the run is over. */
  ghost predicate Enabled(s: State, step: Step) {
    match step
    case Registers(reqID) => true
    case Waits(r, elts) => WellMade(elts) && r !in s.rules && r !in s.rulesConds
    case Wakes(r) => r in s.rulesConds && s.rulesConds[r] > 0 && r in s.rules && Wake(s, r).Woken?
    case Completes(reqID) => true
    case Cancels(reqID) => true
  }

  function Next(s: State, step: Step): State
    requires step.Wakes? ==> step.r in s.rules
  {
    match step
    case Registers(reqID) => AddCall(s, reqID)
    case Waits(r, elts) => AddRule(s, r, elts).0
    case Wakes(r) => var w := Wake(s, r); if w.Woken? then w.state else s
    case Completes(reqID) => Notify(s, reqID)
    case Cancels(reqID) => CancelCall(s, reqID)
  }

  lemma StepKeepsValid(s: State, step: Step)
    requires Valid(s) && Enabled(s, step)
    ensures Valid(Next(s, step))
  {
    match step
    case Registers(reqID) => AddCallKeepsValid(s, reqID);
    case Waits(r, elts) => AddRuleKeepsValid(s, r, elts);
    case Wakes(r) => WakeKeepsValid(s, r);
    case Completes(reqID) => NotifyKeepsValid(s, reqID);
    case Cancels(reqID) => if reqID in s.caList { CancelWakesAll(s, reqID); }
  }

  ghost predicate IsRun(run: seq<State>, steps: seq<Step>) {
    && |run| == |steps| + 1 && run[0] == EMPTY
    && forall i :: 0 <= i < |steps| ==> Enabled(run[i], steps[i]) && run[i + 1] == Next(run[i], steps[i])
  }

  lemma RunKeepsValid(run: seq<State>, steps: seq<Step>, i: nat)
    requires IsRun(run, steps) && i < |run|
    ensures Valid(run[i])
  {
    if i == 0 {
      EmptyValid();
    } else {
      RunKeepsValid(run, steps, i - 1);
      StepKeepsValid(run[i - 1], steps[i - 1]);
    }
  }

  /** No wake-up is lost: at every moment of every run, a registered rule that is satisfied or
      names a request that is gone has been posted, as done or cancelled. */
  lemma NoLostWakeUp(run: seq<State>, steps: seq<Step>, i: nat, r: int)
    requires IsRun(run, steps) && i < |run| && r in run[i].rulesConds
    ensures var s := run[i];
      && r in s.rules
      && (Satisfied(s.caList, s.rules[r].ruleElts) ==> s.rulesConds[r] > 0)
      && (forall e :: e in s.rules[r].ruleElts && e.reqID !in s.caList ==> s.rulesConds[r] > 0)
      && (s.rulesConds[r] > 0 ==> s.rules[r].status == DONE || s.rules[r].status == CANCEL)
  {
    var s := run[i];
    RunKeepsValid(run, steps, i);
    assert RuleOk(s, r);
    if Waiting(s, r) {
      assert WaitsRightly(s, r);
    }
  }

  /** Once posted a rule stays so until its waiter passes. */
  lemma PostedStays(run: seq<State>, steps: seq<Step>, i: nat, j: nat, r: int)
    requires IsRun(run, steps) && i <= j < |run| && r in run[i].rulesConds && run[i].rulesConds[r] > 0
    requires forall k :: i <= k < j ==> steps[k] != Wakes(r)
    ensures r in run[j].rulesConds && run[j].rulesConds[r] >= run[i].rulesConds[r]
    decreases j
  {
    if i < j {
      PostedStays(run, steps, i, j - 1, r);
      RunKeepsValid(run, steps, j - 1);
      StepKeepsPosts(run[j - 1], steps[j - 1], r);
    }
  }

  lemma StepKeepsPosts(s: State, step: Step, r: int)
    requires Valid(s) && Enabled(s, step) && r in s.rulesConds && step != Wakes(r)
    ensures r in Next(s, step).rulesConds && Next(s, step).rulesConds[r] >= s.rulesConds[r]
  {
    assert RuleOk(s, r);
    match step
    case Registers(reqID) =>
    case Waits(q, elts) =>
    case Wakes(q) =>
    case Completes(reqID) =>
      if reqID in s.caList { UnpostedKeepsStatus(s, reqID, r); }
    case Cancels(reqID) =>
      PostAllEffect(s, Entries(s, reqID), CANCEL, r);
  }

  // ---------------------------------------------------------------- the requests themselves

  /** A completed request is done, whether a rule is about it or not, and nothing else about
      the requests changes. */
  lemma NotifyCompletes(s: State, reqID: int)
    ensures Notify(s, reqID).caList.Keys == s.caList.Keys
    ensures reqID in s.caList ==> Notify(s, reqID).caList[reqID] == Data(DONE, s.caList[reqID].used)
    ensures forall id :: id in s.caList && id != reqID ==> Notify(s, reqID).caList[id] == s.caList[id]
  {
  }

  /** A rule counts one use for each time it mentions a request. */
  lemma {:induction false} UsesCounted(caList: map<int, Data>, elts: seq<RuleElement>, n: nat, id: int)
    requires n <= |elts| && (forall k :: 0 <= k < n ==> elts[k].reqID in caList) && id in caList
    ensures CountUse(caList, elts, n)[id].used == caList[id].used + multiset(Requests(elts[..n]))[id]
  {
    if n > 0 {
      UsesCounted(caList, elts, n - 1, id);
      OneMoreRequest(elts, n, Requests(elts[..n - 1]), Requests(elts[..n]));
    } else {
      assert Requests(elts[..0]) == [];
    }
  }

  /** A wait counts the requests in front of the first unknown one, however it ends. */
  lemma WaitCounts(s: State, r: int, elts: seq<RuleElement>, n: nat, id: int)
    requires n <= |elts| && (forall k :: 0 <= k < n ==> elts[k].reqID in s.caList) && id in s.caList
    requires n < |elts| ==> elts[n].reqID !in s.caList
    ensures id in AddRule(s, r, elts).0.caList
    ensures AddRule(s, r, elts).0.caList[id]
      == Data(s.caList[id].st, s.caList[id].used + multiset(Requests(elts[..n]))[id])
  {
    RegisteredIs(s.caList, elts, n);
    UsesCounted(s.caList, elts, n, id);
  }

  lemma OneMoreRequest(elts: seq<RuleElement>, n: nat, before: seq<int>, now: seq<int>)
    requires 0 < n <= |elts| && before == Requests(elts[..n - 1]) && now == Requests(elts[..n])
    ensures multiset(now) == multiset(before) + multiset{elts[n - 1].reqID}
  {
    assert now == before + [elts[n - 1].reqID];
  }

  function Requests(elts: seq<RuleElement>): (ids: seq<int>)
    ensures |ids| == |elts|
  {
    seq(|elts|, k requires 0 <= k < |elts| => elts[k].reqID)
  }

  /** The request was registered at an earlier step and not cancelled since. */
  ghost predicate RegisteredAt(steps: seq<Step>, j: nat, id: int)
    requires j <= |steps|
  {
    exists i :: 0 <= i < j && steps[i] == Registers(id) && Uncancelled(steps, i, j, id)
  }

  /** It completed at an earlier step, being registered, and was not cancelled since. */
  ghost predicate CompletedAt(steps: seq<Step>, j: nat, id: int)
    requires j <= |steps|
  {
    exists i :: 0 <= i < j && steps[i] == Completes(id) && Uncancelled(steps, i, j, id) && RegisteredAt(steps, i, id)
  }

  ghost predicate Uncancelled(steps: seq<Step>, i: int, j: nat, id: int)
    requires 0 <= i <= j <= |steps|
  {
    forall m :: i <= m < j ==> steps[m] != Cancels(id)
  }

  /** What a step does to one request. */
  lemma StepOnRequest(s: State, step: Step, id: int)
    requires Valid(s) && Enabled(s, step)
    ensures id in Next(s, step).caList <==> step == Registers(id) || (id in s.caList && step != Cancels(id))
    ensures IsDone(Next(s, step).caList, id) <==>
      (step == Completes(id) && id in s.caList) || (IsDone(s.caList, id) && step != Cancels(id))
  {
    match step
    case Registers(reqID) =>
    case Waits(r, elts) =>
    case Wakes(r) =>
    case Completes(reqID) => NotifyCompletes(s, reqID);
    case Cancels(reqID) =>
  }

  /** At every moment of every run the registered requests are those registered and not
      cancelled since, and those done are the ones that completed meanwhile. */
  lemma RequestsFollowTheRun(run: seq<State>, steps: seq<Step>, j: nat, id: int)
    requires IsRun(run, steps) && j < |run|
    ensures id in run[j].caList <==> RegisteredAt(steps, j, id)
    ensures IsDone(run[j].caList, id) <==> CompletedAt(steps, j, id)
  {
    if j > 0 {
      RequestsFollowTheRun(run, steps, j - 1, id);
      RunKeepsValid(run, steps, j - 1);
      FollowsOneStep(run[j - 1], steps[j - 1], run[j], steps, j, id);
    }
  }

  lemma FollowsOneStep(s: State, step: Step, t: State, steps: seq<Step>, j: nat, id: int)
    requires Valid(s) && Enabled(s, step) && t == Next(s, step) && 0 < j <= |steps| && step == steps[j - 1]
    requires id in s.caList <==> RegisteredAt(steps, j - 1, id)
    requires IsDone(s.caList, id) <==> CompletedAt(steps, j - 1, id)
    ensures id in t.caList <==> RegisteredAt(steps, j, id)
    ensures IsDone(t.caList, id) <==> CompletedAt(steps, j, id)
  {
    StepOnRequest(s, step, id);
    RegisteredNext(steps, j, id);
    CompletedNext(steps, j, id);
  }

  lemma RegisteredNext(steps: seq<Step>, j: nat, id: int)
    requires 0 < j <= |steps|
    ensures RegisteredAt(steps, j, id) <==>
      steps[j - 1] == Registers(id) || (RegisteredAt(steps, j - 1, id) && steps[j - 1] != Cancels(id))
  {
    if steps[j - 1] == Registers(id) {
      assert Uncancelled(steps, j - 1, j, id);
    } else if RegisteredAt(steps, j - 1, id) && steps[j - 1] != Cancels(id) {
      var i :| 0 <= i < j - 1 && steps[i] == Registers(id) && Uncancelled(steps, i, j - 1, id);
      assert Uncancelled(steps, i, j, id);
    } else if RegisteredAt(steps, j, id) {
      var i :| 0 <= i < j && steps[i] == Registers(id) && Uncancelled(steps, i, j, id);
      assert steps[j - 1] != Cancels(id) && Uncancelled(steps, i, j - 1, id);
    }
  }

  lemma CompletedNext(steps: seq<Step>, j: nat, id: int)
    requires 0 < j <= |steps|
    ensures CompletedAt(steps, j, id) <==>
      (steps[j - 1] == Completes(id) && RegisteredAt(steps, j - 1, id))
      || (CompletedAt(steps, j - 1, id) && steps[j - 1] != Cancels(id))
  {
    if steps[j - 1] == Completes(id) && RegisteredAt(steps, j - 1, id) {
      assert Uncancelled(steps, j - 1, j, id);
    } else if CompletedAt(steps, j - 1, id) && steps[j - 1] != Cancels(id) {
      var i :| 0 <= i < j - 1 && steps[i] == Completes(id) && Uncancelled(steps, i, j - 1, id)
        && RegisteredAt(steps, i, id);
      assert Uncancelled(steps, i, j, id);
    } else if CompletedAt(steps, j, id) {
      var i :| 0 <= i < j && steps[i] == Completes(id) && Uncancelled(steps, i, j, id) && RegisteredAt(steps, i, id);
      assert steps[j - 1] != Cancels(id) && Uncancelled(steps, i, j - 1, id);
    }
  }

  /** Waiting for requests that have completed is answered at once, with DONE and without a
      rule: all of them for a strict rule, one of them, when all are registered, for another. */
  lemma NoWaitAfterCompletion(run: seq<State>, steps: seq<Step>, j: nat, r: int, elts: seq<RuleElement>)
    requires IsRun(run, steps) && j < |run| && WellMade(elts) && elts != []
    requires if Strict(elts[0].op) then forall e :: e in elts ==> CompletedAt(steps, j, e.reqID)
      else (forall e :: e in elts ==> RegisteredAt(steps, j, e.reqID))
           && exists e :: e in elts && CompletedAt(steps, j, e.reqID)
    ensures var (t, outcome) := AddRule(run[j], r, elts);
      outcome == Immediate(DONE) && t.rules == run[j].rules && t.rulesIDs == run[j].rulesIDs
  {
    var s := run[j];
    forall e | e in elts ensures e.reqID in s.caList {
      RequestsFollowTheRun(run, steps, j, e.reqID);
    }
    forall e | e in elts && CompletedAt(steps, j, e.reqID) ensures IsDone(s.caList, e.reqID) {
      RequestsFollowTheRun(run, steps, j, e.reqID);
    }
    assert forall k :: 0 <= k < |elts| ==> elts[k] in elts;
    AllRegistered(s.caList, elts);
    if !Strict(elts[0].op) {
      var e :| e in elts && CompletedAt(steps, j, e.reqID);
      var k :| 0 <= k < |elts| && elts[k] == e;
      assert IsDone(s.caList, elts[k].reqID);
    }
  }

  lemma {:induction false} AllRegistered(caList: map<int, Data>, elts: seq<RuleElement>)
    requires forall e :: e in elts ==> e.reqID in caList
    ensures Registered(caList, elts) == |elts|
  {
    if elts != [] { AllRegistered(caList, elts[1..]); }
  }

  // ---------------------------------------------------------------- the manager

  /** The checking loop of addWaitRule, with its flags `plenty` and `tmpplenty`: n elements are
      registered and count one use more, and plenty tells whether all of them leave nothing
      to wait for. */
  method CheckElements(c: map<int, Data>, elts: seq<RuleElement>) returns (d: map<int, Data>, n: nat, plenty: bool)
    ensures n == Registered(c, elts) && d == CountUse(c, elts, n)
    ensures n == |elts| ==> plenty == Ready(c, elts)
  {
    var tmpplenty;
    d, n, plenty, tmpplenty := CountElements(c, elts);
    RegisteredIs(c, elts, n);
    ReadySplit(c, elts);
    if tmpplenty {
      plenty := true;
    }
  }

  method CheckElement(st: Status, op: WaitOperator, plenty: bool, tmpplenty: bool) returns (p: bool, t: bool)
    ensures p == (plenty && st != RESOLVING)
    ensures t == (tmpplenty || (st == DONE && op != ALL && op != AND))
  {
    p, t := plenty, tmpplenty;
    if st == RESOLVING {
      p := false; // one result is not there yet
    } else if st == DONE && op != ALL && op != AND {
      t := true; // one result is there already
    }
  }

  lemma CountOneMore(c: map<int, Data>, elts: seq<RuleElement>, n: nat, d: map<int, Data>)
    requires n < |elts| && (forall m :: 0 <= m < n ==> elts[m].reqID in c)
    requires d == CountUse(c, elts, n) && elts[n].reqID in d
    ensures (forall m :: 0 <= m < n + 1 ==> elts[m].reqID in c) && d[elts[n].reqID].st == c[elts[n].reqID].st
    ensures CountUse(c, elts, n + 1) == d[elts[n].reqID := d[elts[n].reqID].(used := d[elts[n].reqID].used + 1)]
    ensures NoneResolving(c, elts, n + 1) == (NoneResolving(c, elts, n) && d[elts[n].reqID].st != RESOLVING)
    ensures SomeDone(c, elts, n + 1) ==
      (SomeDone(c, elts, n) || (d[elts[n].reqID].st == DONE && elts[n].op != ALL && elts[n].op != AND))
  {
  }

  method CountElements(c: map<int, Data>, elts: seq<RuleElement>)
    returns (d: map<int, Data>, n: nat, plenty: bool, tmpplenty: bool)
    ensures n <= |elts| && (forall m :: 0 <= m < n ==> elts[m].reqID in c) && (n < |elts| ==> elts[n].reqID !in c)
    ensures d == CountUse(c, elts, n) && plenty == NoneResolving(c, elts, n) && tmpplenty == SomeDone(c, elts, n)
  {
    tmpplenty := false;
    d, plenty, n := c, true, 0;
    while n < |elts| && elts[n].reqID in d // an unregistered request ends the check
      invariant n <= |elts| && (forall m :: 0 <= m < n ==> elts[m].reqID in c)
      invariant d == CountUse(c, elts, n)
      invariant plenty == NoneResolving(c, elts, n) && tmpplenty == SomeDone(c, elts, n)
    {
      CountOneMore(c, elts, n, d);
      plenty, tmpplenty := CheckElement(d[elts[n].reqID].st, elts[n].op, plenty, tmpplenty);
      d := d[elts[n].reqID := d[elts[n].reqID].(used := d[elts[n].reqID].used + 1)];
      n := n + 1;
    }
  }

  /** No rule is about a request with this number or a larger one. */
  predicate NoEntryFrom(ids: map<int, seq<int>>, reqID: int) {
    forall id :: id in ids && id >= reqID ==> ids[id] == []
  }

  /** The singleton. Every method is one section under the writer lock. */
  class CallAsyncMgr {
    var caList: map<int, Data>
    var rulesIDs: map<int, seq<int>>
    var rulesConds: map<int, nat>
    var rules: map<int, Rule>

    function Now(): State
      reads this
    {
      State(caList, rulesIDs, rulesConds, rules)
    }

    constructor ()
      ensures Now() == EMPTY && Valid(Now())
    {
      caList, rulesIDs, rulesConds, rules := map[], map[], map[], map[];
      new;
      EmptyValid();
    }

    method AddAsyncCall(reqID: int)
      requires Valid(Now())
      modifies this
      ensures Now() == AddCall(old(Now()), reqID) && Valid(Now())
    {
      AddCallKeepsValid(Now(), reqID);
      if reqID !in caList {
        caList := caList[reqID := Data(RESOLVING, 0)];
      }
    }

    /** The loop over the elements of one rule in notifyRst. */
    method HasPlenty(elts: seq<RuleElement>) returns (plenty: bool)
      ensures plenty == Plenty(caList, elts)
    {
      plenty := true;
      for k := 0 to |elts|
        invariant plenty <==> forall m :: 0 <= m < k && Strict(elts[m].op) && elts[m].reqID in caList ==>
          IsDone(caList, elts[m].reqID)
      {
        if elts[k].reqID in caList && caList[elts[k].reqID].st != DONE
           && (elts[k].op == AND || elts[k].op == SOLE || elts[k].op == ALL) {
          plenty := false;
        }
      }
    }

    method PostRule(r: int, status: Status)
      requires r in rules && r in rulesConds
      modifies this`rules, this`rulesConds
      ensures Now() == Post(old(Now()), r, status)
    {
      rules := rules[r := rules[r].(status := status)];
      rulesConds := rulesConds[r := rulesConds[r] + 1];
    }

    method NotifyRst(reqID: int) returns (rc: int)
      requires Valid(Now())
      modifies this
      ensures Now() == Notify(old(Now()), reqID) && Valid(Now())
      ensures reqID in old(caList) ==> reqID in caList && caList[reqID].st == DONE
      ensures rc == if reqID !in old(caList) then -1 else if NoEntryFrom(old(rulesIDs), reqID) then 1 else 0
    {
      NotifyKeepsValid(Now(), reqID);
      if reqID !in caList {
        return -1;
      }
      var entries := Entries(Now(), reqID);
      forall r | r in entries ensures r in rules && r in rulesConds {
        assert r in Entries(Now(), reqID);
      }
      caList := caList[reqID := caList[reqID].(st := DONE)];
      if NoEntryFrom(rulesIDs, reqID) {
        assert entries == [];
        return 1; // lower_bound is the end of the map
      }
      PostPlenty(entries);
      return 0;
    }

    /** The loop of notifyRst over the rules about the request. */
    method PostPlenty(entries: seq<int>)
      requires forall r :: r in entries ==> r in rules && r in rulesConds
      modifies this`rules, this`rulesConds
      ensures Now() == PostAll(old(Now()), entries, DONE)
    {
      ghost var u := Now();
      for i := 0 to |entries|
        invariant Now() == PostAll(u, entries[..i], DONE)
      {
        var r := entries[i];
        ElementsKept(u, entries[..i], DONE, r);
        assert entries[..i + 1][..i] == entries[..i];
        var plenty := HasPlenty(rules[r].ruleElts);
        if plenty {
          PostRule(r, DONE);
        }
      }
      assert entries[..|entries|] == entries;
    }

    /** The loop over the rules about a cancelled request, which counts them. */
    method PostCancelled(entries: seq<int>) returns (k: int)
      requires forall r :: r in entries ==> r in rules && r in rulesConds
      modifies this`rules, this`rulesConds
      ensures Now() == PostAll(old(Now()), entries, CANCEL) && k == |entries|
    {
      ghost var s := Now();
      k := 0;
      for i := 0 to |entries|
        invariant Now() == PostAll(s, entries[..i], CANCEL) && k == i
      {
        assert entries[..i + 1][..i] == entries[..i];
        PostRule(entries[i], CANCEL);
        k := k + 1;
      }
      assert entries[..|entries|] == entries;
    }

    /** Cancels a request; k is the number of rules about it, or -1 if it is not registered. */
    method DeleteAsyncCallWithoutLock(reqID: int) returns (k: int)
      requires Valid(Now())
      modifies this
      ensures Now() == CancelCall(old(Now()), reqID) && Valid(Now())
      ensures k == if reqID !in old(caList) then -1
        else if old(caList[reqID].used) != 0 then |Entries(old(Now()), reqID)| else 0
    {
      k := -1;
      if reqID in caList {
        CancelWakesAll(Now(), reqID);
        k := 0;
        if caList[reqID].used != 0 {
          var entries := Entries(Now(), reqID);
          forall r | r in entries ensures r in rules && r in rulesConds {
            assert r in Entries(Now(), reqID);
          }
          k := PostCancelled(entries);
        }
        caList := caList - {reqID};
      }
    }

    method AddAllEntries(r: int, elts: seq<RuleElement>)
      modifies this`rulesIDs
      ensures rulesIDs == AddEntries(old(rulesIDs), elts, r)
    {
      ghost var ids := rulesIDs;
      for i := 0 to |elts|
        invariant rulesIDs == AddEntries(ids, elts[..i], r)
      {
        assert elts[..i + 1][..i] == elts[..i];
        var id := elts[i].reqID;
        rulesIDs := rulesIDs[id := (if id in rulesIDs then rulesIDs[id] else []) + [r]];
      }
      assert elts[..|elts|] == elts;
    }

    /** First section of addWaitRule. */
    method AddWaitRule(r: int, elts: seq<RuleElement>) returns (outcome: WaitOutcome)
      requires Valid(Now()) && WellMade(elts) && r !in rules && r !in rulesConds
      modifies this
      ensures (Now(), outcome) == AddRule(old(Now()), r, elts) && Valid(Now())
    {
      AddRuleKeepsValid(Now(), r, elts);
      var n, plenty;
      caList, n, plenty := CheckElements(caList, elts);
      if n < |elts| {
        return Immediate(ERROR);
      }
      if plenty {
        return Immediate(DONE);
      }
      rules := rules[r := Rule(elts, RESOLVING)];
      AddAllEntries(r, elts);
      rulesConds := rulesConds[r := 0];
      return Blocked;
    }

    /** release: cancels every request of a copy of the list, so that no rule stays blocked. */
    method Release()
      requires Valid(Now())
      modifies this
      ensures Valid(Now()) && caList == map[]
      ensures forall r :: r in rulesConds ==> rulesConds[r] > 0
    {
      var todo := caList.Keys;
      while todo != {}
        invariant Valid(Now()) && caList.Keys == todo
      {
        var reqID := AnyOf(todo);
        var k := DeleteAsyncCallWithoutLock(reqID);
        todo := todo - {reqID};
      }
      forall r | r in rulesConds ensures rulesConds[r] > 0 {
        if Waiting(Now(), r) { WaitersHaveCalls(Now(), r); }
      }
    }

    /** The inner loop of deleteWaitRule; `stuck` when it would never end. */
    method EraseEntries(id: int, r: int) returns (stuck: bool)
      modifies this`rulesIDs
      ensures stuck <==> EraseKey(old(rulesIDs), id, r) == Hangs
      ensures !stuck ==> EraseKey(old(rulesIDs), id, r) == Erased(rulesIDs)
    {
      while id in rulesIDs && rulesIDs[id] != []
        invariant EraseKey(rulesIDs, id, r) == EraseKey(old(rulesIDs), id, r)
        decreases if id in rulesIDs then |rulesIDs[id]| else 0
      {
        if rulesIDs[id][0] != r {
          return true;
        }
        rulesIDs := rulesIDs[id := rulesIDs[id][1..]];
      }
      rulesIDs := rulesIDs - {id};
      return false;
    }

    /** deleteWaitRule, up to the removal of the semaphore. */
    method EraseRuleEntries(elts: seq<RuleElement>, r: int) returns (stuck: bool)
      modifies this`rulesIDs
      ensures stuck <==> EraseRule(old(rulesIDs), elts, r) == Hangs
      ensures !stuck ==> EraseRule(old(rulesIDs), elts, r) == Erased(rulesIDs)
    {
      ghost var ids := rulesIDs;
      for k := 0 to |elts|
        invariant EraseRule(ids, elts[..k], r) == Erased(rulesIDs)
      {
        assert elts[..k + 1][..k] == elts[..k];
        stuck := EraseEntries(elts[k].reqID, r);
        if stuck {
          StuckStays(ids, elts, k + 1, r);
          return;
        }
      }
      assert elts[..|elts|] == elts;
      stuck := false;
    }

    /** Second section of addWaitRule, after the semaphore let the waiter pass. */
    method EndWait(r: int) returns (stuck: bool, status: Status)
      requires Valid(Now()) && r in rulesConds && rulesConds[r] > 0 && r in rules
      modifies this
      ensures stuck <==> exists k, q :: 0 <= k < |old(rules)[r].ruleElts|
                           && q in Entries(old(Now()), old(rules)[r].ruleElts[k].reqID) && q != r
      ensures !stuck ==> Wake(old(Now()), r) == Woken(Now(), status) && Valid(Now())
    {
      WakeKeepsValid(Now(), r);
      status := rules[r].status;
      stuck := EraseRuleEntries(rules[r].ruleElts, r);
      if !stuck {
        rulesConds := rulesConds - {r};
        rules := rules - {r};
      }
    }
  }

  ghost predicate NoneResolving(c: map<int, Data>, elts: seq<RuleElement>, n: nat)
    requires n <= |elts|
  {
    n == 0 ||
    (NoneResolving(c, elts, n - 1) && (elts[n - 1].reqID in c ==> c[elts[n - 1].reqID].st != RESOLVING))
  }

  ghost predicate SomeDone(c: map<int, Data>, elts: seq<RuleElement>, n: nat)
    requires n <= |elts|
  {
    n > 0 &&
    (SomeDone(c, elts, n - 1) || (elts[n - 1].op != ALL && elts[n - 1].op != AND && IsDone(c, elts[n - 1].reqID)))
  }

  lemma {:induction false} FlagsMean(c: map<int, Data>, elts: seq<RuleElement>, n: nat)
    requires n <= |elts|
    ensures NoneResolving(c, elts, n) <==>
      forall m :: 0 <= m < n && elts[m].reqID in c ==> c[elts[m].reqID].st != RESOLVING
    ensures SomeDone(c, elts, n) <==>
      exists m :: 0 <= m < n && elts[m].op != ALL && elts[m].op != AND && IsDone(c, elts[m].reqID)
  {
    if n > 0 { FlagsMean(c, elts, n - 1); }
  }

  lemma {:induction false} ReadySplit(c: map<int, Data>, elts: seq<RuleElement>)
    ensures Ready(c, elts) == (NoneResolving(c, elts, |elts|) || SomeDone(c, elts, |elts|))
  {
    FlagsMean(c, elts, |elts|);
  }

  lemma {:induction false} StuckStays(ids: map<int, seq<int>>, elts: seq<RuleElement>, k: nat, r: int)
    requires k <= |elts| && EraseRule(ids, elts[..k], r) == Hangs
    ensures EraseRule(ids, elts, r) == Hangs
    decreases |elts| - k
  {
    if k < |elts| {
      assert elts[..k + 1][..k] == elts[..k];
      StuckStays(ids, elts, k + 1, r);
    } else {
      assert elts[..k] == elts;
    }
  }

  lemma {:induction false} RegisteredIs(caList: map<int, Data>, elts: seq<RuleElement>, n: nat)
    requires n <= |elts| && forall k :: 0 <= k < n ==> elts[k].reqID in caList
    requires n < |elts| ==> elts[n].reqID !in caList
    ensures Registered(caList, elts) == n
  {
    if n > 0 { RegisteredIs(caList, elts[1..], n - 1); }
  }

  lemma {:induction false} ElementsKept(s: State, entries: seq<int>, status: Status, r: int)
    requires r in s.rules
    ensures PostAll(s, entries, status).rules[r].ruleElts == s.rules[r].ruleElts
  {
    if entries != [] { ElementsKept(s, entries[..|entries| - 1], status, r); }
  }
}
