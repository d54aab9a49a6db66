/** src/agent/FloodRequest.cc: what one master agent knows about one flooded request. */
module FloodRequestState {
  import opened Common

  type Id = int // bind name of a master agent
  type ServerName = string

  datatype NbState = NotContacted | AlreadyContacted | Flooded | Flooding

  type Neighbours = map<Id, NbState>

  const MAX_HOPS := 8

  // ---------------------------------------------------------------- what a step does

  function InState(nbs: Neighbours, st: NbState): (ids: set<Id>)
    ensures forall v :: v in ids <==> v in nbs && nbs[v] == st
  {
    set v | v in nbs && nbs[v] == st
  }

  /** floodNextStep: contacts the new neighbours and goes on with those still flooding; a
      neighbour that cannot be reached counts as flooded. */
  function NextState(st: NbState, alive: bool): NbState {
    match st
    case NotContacted => if alive then Flooding else Flooded
    case Flooding => if alive then Flooding else Flooded
    case _ => st
  }

  function NextStates(nbs: Neighbours, alive: set<Id>): (n: Neighbours)
    ensures n.Keys == nbs.Keys
  {
    map v | v in nbs :: NextState(nbs[v], v in alive)
  }

  /** The result of floodNextStep: nobody new was contacted and nobody was still flooding. */
  predicate CompletelyFlooded(nbs: Neighbours, alive: set<Id>) {
    InState(nbs, NotContacted) * alive == {} && InState(nbs, Flooding) == {}
  }

  predicate IsFlooded(nbs: Neighbours, hop: nat) {
    hop >= MAX_HOPS || forall v :: v in nbs ==> nbs[v] == Flooded
  }

  /** The neighbours of a new request; the predecessor needs no contact. */
  function InitialStates(knownMAs: set<Id>, predecessor: set<Id>): (n: Neighbours)
    ensures n.Keys == knownMAs
  {
    map v | v in knownMAs :: if v in predecessor then AlreadyContacted else NotContacted
  }

  /** An answer about a neighbour that is not in the list only draws a warning. */
  function Mark(nbs: Neighbours, v: Id, st: NbState): Neighbours {
    if v in nbs then nbs[v := st] else nbs
  }

  /** The neighbours that stopFlooding tells to stop. */
  function StopTargets(nbs: Neighbours): (ids: set<Id>)
    ensures forall v :: v in ids <==> v in nbs && nbs[v] != NotContacted && nbs[v] != AlreadyContacted
  {
    set v | v in nbs && (nbs[v] == Flooding || nbs[v] == Flooded)
  }

  /** No state goes back to NotContacted and, after a step, none is left in it. */
  lemma StepContactsAll(nbs: Neighbours, alive: set<Id>)
    ensures InState(NextStates(nbs, alive), NotContacted) == {}
    ensures InState(NextStates(nbs, alive), Flooding) ==
      (InState(nbs, NotContacted) + InState(nbs, Flooding)) * alive
    ensures InState(NextStates(nbs, alive), Flooded) ==
      InState(nbs, Flooded) + (InState(nbs, NotContacted) + InState(nbs, Flooding) - alive)
    ensures InState(NextStates(nbs, alive), AlreadyContacted) == InState(nbs, AlreadyContacted)
    ensures CompletelyFlooded(nbs, alive) ==> InState(NextStates(nbs, alive), Flooding) == {}
  {
    var next := NextStates(nbs, alive);
    UnreachableIsFlooded(nbs, alive, next);
    forall v ensures v !in InState(next, NotContacted) {
      assert v in next ==> next[v] == NextState(nbs[v], v in alive);
    }
    forall v ensures v in InState(next, Flooding) <==>
      v in (InState(nbs, NotContacted) + InState(nbs, Flooding)) * alive
    {
      assert v in next ==> next[v] == NextState(nbs[v], v in alive);
    }
  }

  lemma UnreachableIsFlooded(nbs: Neighbours, alive: set<Id>, next: Neighbours)
    requires next == NextStates(nbs, alive)
    ensures InState(next, Flooded) ==
      InState(nbs, Flooded) + (InState(nbs, NotContacted) + InState(nbs, Flooding) - alive)
    ensures InState(next, AlreadyContacted) == InState(nbs, AlreadyContacted)
  {
    forall v ensures v in InState(next, AlreadyContacted) <==> v in InState(nbs, AlreadyContacted) {
      assert v in next ==> next[v] == NextState(nbs[v], v in alive);
    }
    forall v ensures v in InState(next, Flooded) <==>
      v in InState(nbs, Flooded) + (InState(nbs, NotContacted) + InState(nbs, Flooding) - alive)
    {
      assert v in next ==> next[v] == NextState(nbs[v], v in alive);
    }
  }

  /** A request whose neighbours are all out of reach is flooded after one step. */
  lemma NobodyReachable(nbs: Neighbours, alive: set<Id>, hop: nat)
    requires forall v :: v in nbs ==> nbs[v] != AlreadyContacted && v !in alive
    ensures IsFlooded(NextStates(nbs, alive), hop)
  {
    var next := NextStates(nbs, alive);
    forall v | v in next ensures next[v] == Flooded {
      assert next[v] == NextState(nbs[v], false);
    }
  }

  lemma NobodyLeft(nbs: Neighbours, alive: set<Id>)
    ensures CompletelyFlooded(nbs, alive) <==>
      forall v :: v in nbs ==> nbs[v] != Flooding && (nbs[v] == NotContacted ==> v !in alive)
  {
    if CompletelyFlooded(nbs, alive) {
      forall v | v in nbs ensures nbs[v] != Flooding && (nbs[v] == NotContacted ==> v !in alive) {
        assert v !in InState(nbs, NotContacted) * alive && v !in InState(nbs, Flooding);
      }
    } else {
      var v := Any(InState(nbs, NotContacted) * alive + InState(nbs, Flooding));
      assert v in nbs;
    }
  }

  /** The states while floodNextStep still has the neighbours of `todo` to visit. */
  ghost function PartlyStepped(nbs: Neighbours, alive: set<Id>, todo: set<Id>): (now: Neighbours)
    ensures now.Keys == nbs.Keys
  {
    map v | v in nbs :: if v in todo then nbs[v] else NextState(nbs[v], v in alive)
  }

  /** The visited neighbours that were in state st and answered the call. */
  ghost function Visited(nbs: Neighbours, st: NbState, alive: set<Id>, todo: set<Id>): set<Id> {
    set v | v in nbs && v !in todo && v in alive && nbs[v] == st
  }

  lemma VisitOne(nbs: Neighbours, st: NbState, alive: set<Id>, todo: set<Id>, v: Id)
    requires v in todo && v in nbs
    ensures PartlyStepped(nbs, alive, todo)[v] == nbs[v]
    ensures PartlyStepped(nbs, alive, todo - {v}) == PartlyStepped(nbs, alive, todo)[v := NextState(nbs[v], v in alive)]
    ensures v !in Visited(nbs, st, alive, todo)
    ensures Visited(nbs, st, alive, todo - {v}) ==
      Visited(nbs, st, alive, todo) + if v in alive && nbs[v] == st then {v} else {}
  {
  }

  lemma VisitedAll(nbs: Neighbours, alive: set<Id>)
    ensures PartlyStepped(nbs, alive, nbs.Keys) == nbs && PartlyStepped(nbs, alive, {}) == NextStates(nbs, alive)
    ensures forall st :: Visited(nbs, st, alive, nbs.Keys) == {}
    ensures forall st :: Visited(nbs, st, alive, {}) == InState(nbs, st) * alive
  {
    forall st ensures Visited(nbs, st, alive, {}) == InState(nbs, st) * alive {
    }
  }

  // ---------------------------------------------------------------- the object

  class FloodRequest {
    var neighbouringMAs: Neighbours
    var hop: nat
    var nbOfWaitingResponse: int
    var decisions: seq<ServerName>
    var allResponseReceived: bool // the condition variable has been signalled

    ghost var searched: multiset<Id>         // receivers of searchService, over the whole run
    ghost var received: seq<ServerName>      // all servers received, in order
    ghost var handedOut: seq<ServerName>     // all servers returned by getDecision, in order

    /** Each neighbour was sent searchService at most once, only before its state left
        NotContacted, and no server was lost, repeated or reordered. */
    ghost predicate Valid()
      reads this
    {
      && (forall v :: searched[v] <= 1)
      && (forall v :: v in neighbouringMAs && neighbouringMAs[v] == NotContacted ==> searched[v] == 0)
      && (forall v :: searched[v] > 0 ==> v in neighbouringMAs)
      && received == handedOut + decisions
      && (hop > 0 ==> InState(neighbouringMAs, NotContacted) == {})
    }

    constructor (predecessor: set<Id>, knownMAs: set<Id>)
      requires |predecessor| <= 1
      ensures Valid() && neighbouringMAs == InitialStates(knownMAs, predecessor)
      ensures InState(neighbouringMAs, AlreadyContacted) == knownMAs * predecessor
      ensures InState(neighbouringMAs, NotContacted) == knownMAs - predecessor
      ensures hop == 0 && decisions == [] && nbOfWaitingResponse == 0 && !allResponseReceived
    {
      neighbouringMAs := InitialStates(knownMAs, predecessor);
      hop, nbOfWaitingResponse, decisions, allResponseReceived := 0, 0, [], false;
      searched, received, handedOut := multiset{}, [], [];
    }

    method FloodNextStep(alive: set<Id>) returns (completelyFlooded: bool, searches: set<Id>, continues: set<Id>)
      requires Valid()
      modifies this`hop, this`nbOfWaitingResponse, this`neighbouringMAs, this`searched
      ensures Valid() && hop == old(hop) + 1
      ensures neighbouringMAs == NextStates(old(neighbouringMAs), alive)
      ensures searches == InState(old(neighbouringMAs), NotContacted) * alive
      ensures continues == InState(old(neighbouringMAs), Flooding) * alive
      ensures completelyFlooded == CompletelyFlooded(old(neighbouringMAs), alive)
      ensures completelyFlooded <==> forall v :: v in old(neighbouringMAs) ==>
        old(neighbouringMAs)[v] != Flooding && (old(neighbouringMAs)[v] == NotContacted ==> v !in alive)
      ensures nbOfWaitingResponse == |InState(neighbouringMAs, Flooding)|
    {
      hop := hop + 1;
      NobodyLeft(neighbouringMAs, alive);
      completelyFlooded, searches, continues := VisitNeighbours(alive);
      searched := searched + multiset(searches);
    }

    /** The loop of floodNextStep. */
    method VisitNeighbours(alive: set<Id>) returns (completelyFlooded: bool, searches: set<Id>, continues: set<Id>)
      modifies this`nbOfWaitingResponse, this`neighbouringMAs
      ensures neighbouringMAs == NextStates(old(neighbouringMAs), alive)
      ensures searches == InState(old(neighbouringMAs), NotContacted) * alive
      ensures continues == InState(old(neighbouringMAs), Flooding) * alive
      ensures completelyFlooded == CompletelyFlooded(old(neighbouringMAs), alive)
      ensures InState(neighbouringMAs, NotContacted) == {}
      ensures nbOfWaitingResponse == |InState(neighbouringMAs, Flooding)|
    {
      ghost var nbs := neighbouringMAs;
      completelyFlooded, searches, continues := VisitEach(alive);
      VisitedAll(nbs, alive);
      StepContactsAll(nbs, alive);
      assert InState(neighbouringMAs, Flooding) == searches + continues;
    }

    method VisitEach(alive: set<Id>) returns (completelyFlooded: bool, searches: set<Id>, continues: set<Id>)
      modifies this`nbOfWaitingResponse, this`neighbouringMAs
      ensures neighbouringMAs == PartlyStepped(old(neighbouringMAs), alive, {})
      ensures searches == Visited(old(neighbouringMAs), NotContacted, alive, {})
      ensures continues == Visited(old(neighbouringMAs), Flooding, alive, {})
      ensures completelyFlooded <==> searches == {} && InState(old(neighbouringMAs), Flooding) == {}
      ensures nbOfWaitingResponse == |searches| + |continues|
    {
      ghost var nbs := neighbouringMAs;
      nbOfWaitingResponse := 0;
      completelyFlooded, searches, continues := true, {}, {};
      var todo := neighbouringMAs.Keys;
      VisitedAll(nbs, alive);
      while todo != {}
        invariant todo <= nbs.Keys
        invariant neighbouringMAs == PartlyStepped(nbs, alive, todo)
        invariant searches == Visited(nbs, NotContacted, alive, todo)
        invariant continues == Visited(nbs, Flooding, alive, todo)
        invariant completelyFlooded <==> searches == {} && InState(nbs, Flooding) <= todo
        invariant nbOfWaitingResponse == |searches| + |continues|
      {
        var v := AnyOf(todo);
        VisitOne(nbs, NotContacted, alive, todo, v);
        VisitOne(nbs, Flooding, alive, todo, v);
        var st := neighbouringMAs[v];
        var contacted, waited := ContactOne(v, v in alive);
        searches := if contacted then searches + {v} else searches;
        continues := if waited then continues + {v} else continues;
        completelyFlooded := completelyFlooded && !contacted && st != Flooding;
        todo := todo - {v};
      }
    }

    /** One neighbour: searchService, newFlood, or nothing. */
    method ContactOne(v: Id, alive: bool) returns (contacted: bool, waited: bool)
      requires v in neighbouringMAs
      modifies this`nbOfWaitingResponse, this`neighbouringMAs
      ensures neighbouringMAs == old(neighbouringMAs)[v := NextState(old(neighbouringMAs)[v], alive)]
      ensures contacted <==> old(neighbouringMAs)[v] == NotContacted && alive
      ensures waited <==> old(neighbouringMAs)[v] == Flooding && alive
      ensures nbOfWaitingResponse == old(nbOfWaitingResponse) + if contacted || waited then 1 else 0
    {
      contacted, waited := false, false;
      match neighbouringMAs[v]
      case NotContacted =>
        if alive {
          contacted := true;
          neighbouringMAs := neighbouringMAs[v := Flooding];
          nbOfWaitingResponse := nbOfWaitingResponse + 1;
        } else {
          neighbouringMAs := neighbouringMAs[v := Flooded];
        }
      case Flooding =>
        if alive {
          waited := true;
          nbOfWaitingResponse := nbOfWaitingResponse + 1;
        } else {
          neighbouringMAs := neighbouringMAs[v := Flooded];
        }
      case _ =>
    }

    method IsFloodedNow() returns (result: bool)
      ensures result == IsFlooded(neighbouringMAs, hop)
      ensures result <==> hop >= 8 || forall v :: v in neighbouringMAs ==> neighbouringMAs[v] == Flooded
    {
      if hop >= MAX_HOPS {
        return true;
      }
      result := true;
      var todo := neighbouringMAs.Keys;
      while result && todo != {}
        invariant todo <= neighbouringMAs.Keys
        invariant result <==> forall v :: v in neighbouringMAs && v !in todo ==> neighbouringMAs[v] == Flooded
      {
        var v := AnyOf(todo);
        todo := todo - {v};
        if neighbouringMAs[v] != Flooded {
          result := false;
        }
      }
    }

    /** Counts a response and signals when it was the last one. */
    method AddNewResponse()
      modifies this`nbOfWaitingResponse, this`allResponseReceived
      ensures nbOfWaitingResponse == old(nbOfWaitingResponse) - 1
      ensures allResponseReceived <==> old(allResponseReceived) || nbOfWaitingResponse == 0
    {
      nbOfWaitingResponse := nbOfWaitingResponse - 1;
      if nbOfWaitingResponse == 0 {
        allResponseReceived := true;
      }
    }

    method AddResponseNotFound()
      requires Valid()
      modifies this`nbOfWaitingResponse, this`allResponseReceived
      ensures Valid() && nbOfWaitingResponse == old(nbOfWaitingResponse) - 1
      ensures allResponseReceived <==> old(allResponseReceived) || nbOfWaitingResponse == 0
    {
      AddNewResponse();
    }

    method AddResponseFloodedArea(sender: Id)
      requires Valid()
      modifies this`nbOfWaitingResponse, this`allResponseReceived, this`neighbouringMAs
      ensures Valid() && nbOfWaitingResponse == old(nbOfWaitingResponse) - 1
      ensures allResponseReceived <==> old(allResponseReceived) || nbOfWaitingResponse == 0
      ensures neighbouringMAs == Mark(old(neighbouringMAs), sender, Flooded)
      ensures sender in old(neighbouringMAs) ==> neighbouringMAs == old(neighbouringMAs)[sender := Flooded]
    {
      if sender in neighbouringMAs {
        neighbouringMAs := neighbouringMAs[sender := Flooded];
      }
      AddNewResponse();
    }

    method AddResponseAlreadyContacted(sender: Id)
      requires Valid()
      modifies this`nbOfWaitingResponse, this`allResponseReceived, this`neighbouringMAs
      ensures Valid() && nbOfWaitingResponse == old(nbOfWaitingResponse) - 1
      ensures allResponseReceived <==> old(allResponseReceived) || nbOfWaitingResponse == 0
      ensures neighbouringMAs == Mark(old(neighbouringMAs), sender, AlreadyContacted)
      ensures sender in old(neighbouringMAs) ==> neighbouringMAs == old(neighbouringMAs)[sender := AlreadyContacted]
    {
      if sender in neighbouringMAs {
        neighbouringMAs := neighbouringMAs[sender := AlreadyContacted];
      }
      AddNewResponse();
    }

    method AddResponseServiceFound(decision: seq<ServerName>)
      requires Valid()
      modifies this`nbOfWaitingResponse, this`allResponseReceived, this`decisions, this`received
      ensures Valid() && nbOfWaitingResponse == old(nbOfWaitingResponse) - 1
      ensures allResponseReceived <==> old(allResponseReceived) || nbOfWaitingResponse == 0
      ensures decisions == old(decisions) + decision && received == old(received) + decision
    {
      for idx := 0 to |decision|
        invariant decisions == old(decisions) + decision[..idx]
        invariant received == old(received) && nbOfWaitingResponse == old(nbOfWaitingResponse)
        invariant allResponseReceived == old(allResponseReceived)
      {
        assert decision[..idx + 1] == decision[..idx] + [decision[idx]];
        decisions := decisions + [decision[idx]];
      }
      assert decision[..|decision|] == decision;
      assert received + decision == handedOut + (old(decisions) + decision);
      received := received + decision;
      AddNewResponse();
    }

    method GetDecision() returns (result: seq<ServerName>)
      requires Valid()
      modifies this`decisions, this`handedOut
      ensures Valid() && result == old(decisions) && decisions == [] && handedOut == old(handedOut) + result
    {
      result := decisions;
      decisions := [];
      handedOut := handedOut + result;
    }

    /** The neighbours that are told to stop; a waiting round is given up. */
    method StopFlooding() returns (targets: set<Id>)
      requires Valid()
      modifies this`nbOfWaitingResponse, this`allResponseReceived
      ensures Valid() && nbOfWaitingResponse == 0
      ensures allResponseReceived <==> old(allResponseReceived) || old(nbOfWaitingResponse) != 0
      ensures targets == StopTargets(neighbouringMAs)
    {
      targets := {};
      var todo := neighbouringMAs.Keys;
      while todo != {}
        invariant todo <= neighbouringMAs.Keys
        invariant targets == StopTargets(neighbouringMAs) - todo
        invariant nbOfWaitingResponse == old(nbOfWaitingResponse) && allResponseReceived == old(allResponseReceived)
      {
        var v := AnyOf(todo);
        if neighbouringMAs[v] != NotContacted && neighbouringMAs[v] != AlreadyContacted {
          targets := targets + {v};
        }
        todo := todo - {v};
      }
      if nbOfWaitingResponse != 0 {
        nbOfWaitingResponse := 0;
        allResponseReceived := true;
      }
    }
  }
}
