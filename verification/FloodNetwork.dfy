/** The search of a service over a network of master agents: FloodRequest and the handlers of
    MasterAgentImpl as one state machine. The links are symmetric, no call fails and an agent
    that waits for answers waits until it has them all. */
module FloodNetwork {
  import opened Common
  import opened FloodRequestState

  /** Who knows whom, who asks, and whose submit_local finds servers. */
  datatype Graph = Graph(nbrs: map<Id, set<Id>>, init: Id, offers: set<Id>)

  ghost predicate WellFormed(g: Graph) {
    && g.init in g.nbrs && g.init !in g.offers
    && (forall u, v :: u in g.nbrs && v in g.nbrs[u] ==> v != u && v in g.nbrs && u in g.nbrs[v])
  }

  /** The agents at distance at most r from the initiator. */
  ghost predicate Within(g: Graph, v: Id, r: nat)
    decreases r
  {
    v in g.nbrs &&
    if r == 0 then v == g.init
    else Within(g, v, r - 1) || exists u :: u in g.nbrs[v] && Within(g, u, r - 1)
  }

  ghost function Ball(g: Graph, r: nat): set<Id> {
    set v | v in g.nbrs && Within(g, v, r)
  }

  ghost predicate Distance(g: Graph, v: Id, r: nat) {
    Within(g, v, r) && (r > 0 ==> !Within(g, v, r - 1))
  }

  // ---------------------------------------------------------------- agents and messages

  /** On the link from an agent to a neighbour it has asked: the question or the answer. The
      servers of an answer are named by the agents whose submit_local returned them. */
  datatype Msg = Search | Continue | NotFound | Found(who: seq<Id>) | FloodedArea | Already

  /** The FloodRequest of an agent; `wire` holds the messages under way on its links, and
      depth and owed (who still has to answer) only serve the proofs. */
  datatype Agent = Agent(pred: Id, nbs: Neighbours, hop: nat, waiting: int, found: seq<Id>, busy: bool,
                         wire: map<Id, Msg>, depth: nat, owed: set<Id>)

  /** Where the servers of an agent are. */
  datatype Place = OnLink(u: Id, v: Id) | Pending(u: Id) | Collected

  /** known: the agents whose reqIdList holds the request; log: the runs of submit_local;
      collected: what the last round brought to the initiator; place: for the proofs. */
  datatype Net = Net(rec: map<Id, Agent>, known: set<Id>, log: seq<Id>, collected: seq<Id>, place: map<Id, Place>)

  datatype Step =
    | StartRound
    | SearchArrives(u: Id, v: Id)
    | ContinueArrives(u: Id, v: Id)
    | AnswerArrives(u: Id, v: Id)
    | WaitEnds(u: Id)

  function NewRequest(pred: Id, neighbours: set<Id>, predecessor: set<Id>, depth: nat): Agent {
    Agent(pred, InitialStates(neighbours, predecessor), 0, 0, [], false, map[], depth, {})
  }

  function Initial(g: Graph): Net
    requires g.init in g.nbrs
  {
    Net(map[g.init := NewRequest(g.init, g.nbrs[g.init], {}, 0)], {}, [], [], map[])
  }

  predicate Asked(s: Net, u: Id, v: Id) {
    u in s.rec && v in s.rec[u].wire
  }

  predicate Question(m: Msg) {
    m == Search || m == Continue
  }

  predicate Enabled(g: Graph, s: Net, step: Step) {
    match step
    case StartRound =>
      g.init in s.rec && !s.rec[g.init].busy && s.collected == [] && !IsFlooded(s.rec[g.init].nbs, s.rec[g.init].hop)
    case SearchArrives(u, v) => Asked(s, u, v) && s.rec[u].wire[v] == Search && v in g.nbrs
    case ContinueArrives(u, v) => Asked(s, u, v) && s.rec[u].wire[v] == Continue && v in s.rec && s.rec[v].pred in s.rec
    case AnswerArrives(u, v) => Asked(s, u, v) && !Question(s.rec[u].wire[v])
    case WaitEnds(u) => u in s.rec && s.rec[u].busy && s.rec[u].waiting == 0 && s.rec[u].pred in s.rec
  }

  // ---------------------------------------------------------------- what a step does

  function Send(s: Net, u: Id, v: Id, m: Msg): Net
    requires u in s.rec
  {
    s.(rec := s.rec[u := s.rec[u].(wire := s.rec[u].wire[v := m])])
  }

  function Receive(s: Net, u: Id, v: Id): Net
    requires u in s.rec
  {
    s.(rec := s.rec[u := s.rec[u].(wire := s.rec[u].wire - {v})])
  }

  function Move(place: map<Id, Place>, who: seq<Id>, to: Place): map<Id, Place> {
    map w | w in place :: if w in who then to else place[w]
  }

  /** floodNextStep at one agent. */
  function Flood(a: Agent): Agent {
    var next := NextStates(a.nbs, a.nbs.Keys);
    var waited := InState(next, Flooding);
    if CompletelyFlooded(a.nbs, a.nbs.Keys) then a.(hop := a.hop + 1, nbs := next, waiting := 0)
    else
      a.(hop := a.hop + 1, nbs := next, waiting := |waited|, busy := true, owed := waited,
         wire := a.wire + map v | v in waited :: if v in a.nbs && a.nbs[v] == NotContacted then Search else Continue)
  }

  /** searchService at v. */
  function TakeSearch(g: Graph, s: Net, u: Id, v: Id): Net
    requires u in s.rec && v in g.nbrs
  {
    if v in s.known then Send(s, u, v, Already)
    else
      var t := s.(rec := s.rec[v := NewRequest(u, g.nbrs[v], {u}, s.rec[u].depth + 1)],
                  known := s.known + {v}, log := s.log + [v]);
      if v in g.offers then Send(t.(place := t.place[v := OnLink(u, v)]), u, v, Found([v]))
      else Send(t, u, v, NotFound)
  }

  /** newFlood at v, up to the wait. */
  function TakeContinue(s: Net, u: Id, v: Id): Net
    requires u in s.rec && v in s.rec && s.rec[v].pred in s.rec
  {
    var r := Receive(s, u, v);
    var t := r.(rec := r.rec[v := Flood(r.rec[v])]);
    if CompletelyFlooded(s.rec[v].nbs, s.rec[v].nbs.Keys) then Send(t, s.rec[v].pred, v, FloodedArea) else t
  }

  function Answered(nbs: Neighbours, v: Id, m: Msg): Neighbours {
    if m == Already then Mark(nbs, v, AlreadyContacted)
    else if m == FloodedArea then Mark(nbs, v, Flooded)
    else nbs
  }

  /** The addResponse functions. */
  function Absorb(a: Agent, v: Id, m: Msg): Agent {
    a.(wire := a.wire - {v}, owed := a.owed - {v}, waiting := a.waiting - 1, nbs := Answered(a.nbs, v, m),
       found := if m.Found? then a.found + m.who else a.found)
  }

  function TakeAnswer(s: Net, u: Id, v: Id): Net
    requires Asked(s, u, v)
  {
    var m := s.rec[u].wire[v];
    s.(rec := s.rec[u := Absorb(s.rec[u], v, m)],
       place := if m.Found? then Move(s.place, m.who, Pending(u)) else s.place)
  }

  /** What newFlood tells the predecessor after the wait. */
  function Report(a: Agent): Msg {
    if a.found != [] then Found(a.found) else if IsFlooded(a.nbs, a.hop) then FloodedArea else NotFound
  }

  function EndWait(g: Graph, s: Net, u: Id): Net
    requires u in s.rec && s.rec[u].pred in s.rec
  {
    var a := s.rec[u];
    var t := s.(rec := s.rec[u := a.(busy := false, found := [])]);
    if u == g.init then t.(collected := a.found, place := Move(s.place, a.found, Collected))
    else Send(t.(place := Move(s.place, a.found, OnLink(a.pred, u))), a.pred, u, Report(a))
  }

  function Apply(g: Graph, s: Net, step: Step): Net
    requires Enabled(g, s, step)
  {
    match step
    case StartRound => s.(rec := s.rec[g.init := Flood(s.rec[g.init])])
    case SearchArrives(u, v) => TakeSearch(g, s, u, v)
    case ContinueArrives(u, v) => TakeContinue(s, u, v)
    case AnswerArrives(u, v) => TakeAnswer(s, u, v)
    case WaitEnds(u) => EndWait(g, s, u)
  }

  // ---------------------------------------------------------------- invariant

  predicate Child(s: Net, u: Id, v: Id) {
    v in s.rec && s.rec[v].pred == u
  }

  predicate IdleChild(s: Net, u: Id, v: Id) {
    Child(s, u, v) && !s.rec[v].busy
  }

  predicate Elsewhere(s: Net, u: Id, v: Id) {
    v in s.rec && s.rec[v].pred != u
  }

  predicate Complete(s: Net, v: Id) {
    v in s.rec && forall x :: x in s.rec[v].nbs ==> s.rec[v].nbs[x] == Flooded || s.rec[v].nbs[x] == AlreadyContacted
  }

  /** What agent u knows of its neighbour v agrees with v and with the message under way. */
  predicate LinkOk(g: Graph, s: Net, u: Id, v: Id)
    requires u in s.rec && v in s.rec[u].nbs
  {
    var a := s.rec[u];
    match a.nbs[v]
    case NotContacted => v !in a.owed && v !in a.wire
    case AlreadyContacted => v !in a.owed && v !in a.wire && Elsewhere(s, u, v)
    case Flooded => v !in a.owed && v !in a.wire && IdleChild(s, u, v) && Complete(s, v)
    case Flooding =>
      if v !in a.owed then v !in a.wire && IdleChild(s, u, v) && s.rec[v].hop + 1 == a.hop
      else if v !in a.wire then Child(s, u, v) && s.rec[v].busy && s.rec[v].hop + 1 == a.hop
      else
        match a.wire[v]
        case Search => a.hop == 1 && v != g.init && !Child(s, u, v)
        case Continue => IdleChild(s, u, v) && s.rec[v].hop + 2 == a.hop
        case FloodedArea => IdleChild(s, u, v) && Complete(s, v)
        case Already => Elsewhere(s, u, v)
        case _ => IdleChild(s, u, v) && s.rec[v].hop + 1 == a.hop
  }

  ghost predicate LinksOk(g: Graph, s: Net) {
    forall u, v {:trigger LinkOk(g, s, u, v)} :: u in s.rec && v in s.rec[u].nbs ==> LinkOk(g, s, u, v)
  }

  /** The counters of one agent. */
  predicate CountersOk(g: Graph, s: Net, v: Id)
    requires v in s.rec && g.init in s.rec && v in g.nbrs
  {
    var a := s.rec[v];
    && a.nbs.Keys == g.nbrs[v] && a.wire.Keys <= a.owed <= a.nbs.Keys && a.waiting == |a.owed|
    && (a.owed != {} || a.found != [] ==> a.busy) && (a.busy ==> a.hop > 0)
    && (if a.hop == 0 then forall x :: x in a.nbs ==> a.nbs[x] == if x == a.pred then AlreadyContacted else NotContacted
        else forall x :: x in a.nbs ==> a.nbs[x] != NotContacted)
    && a.hop + a.depth <= s.rec[g.init].hop
  }

  /** The place of one agent in the tree of predecessors. */
  ghost predicate PlaceOk(g: Graph, s: Net, v: Id)
    requires v in s.rec && v in g.nbrs
  {
    var a := s.rec[v];
    && Distance(g, v, a.depth)
    && (v == g.init <==> a.depth == 0) && (v == g.init ==> a.pred == v)
    && (v != g.init ==>
          && a.pred in s.rec && a.pred in g.nbrs[v] && v in s.rec[a.pred].nbs && a.depth == s.rec[a.pred].depth + 1
          && a.pred in a.nbs && a.nbs[a.pred] == AlreadyContacted
          && (s.rec[a.pred].nbs[v] == Flooding || s.rec[a.pred].nbs[v] == Flooded))
  }

  ghost predicate AgentsOk(g: Graph, s: Net) {
    && g.init in s.rec && s.rec.Keys <= g.nbrs.Keys
    && forall v {:trigger CountersOk(g, s, v)} {:trigger PlaceOk(g, s, v)} ::
      v in s.rec ==> CountersOk(g, s, v) && PlaceOk(g, s, v)
  }

  /** The previous rounds have reached everybody they could, and found no server. */
  ghost predicate RoundsOk(g: Graph, s: Net)
    requires g.init in s.rec
  {
    var r := s.rec[g.init].hop;
    && r <= MAX_HOPS
    && (r > 0 ==> Ball(g, r - 1) <= s.rec.Keys)
  }

  ghost predicate LogOk(g: Graph, s: Net) {
    && s.known == s.rec.Keys - {g.init}
    && (forall v :: v in s.known <==> v in s.log)
    && Distinct(s.log)
  }

  ghost predicate TreeInv(g: Graph, s: Net) {
    WellFormed(g) && AgentsOk(g, s) && LinksOk(g, s) && RoundsOk(g, s) && LogOk(g, s)
  }

  lemma {:induction false} WithinGrows(g: Graph, v: Id, r: nat, q: nat)
    requires Within(g, v, r) && r <= q
    ensures Within(g, v, q)
    decreases q
  {
    if r < q { WithinGrows(g, v, r, q - 1); }
  }

  lemma NextToInit(g: Graph, s: Net, v: Id)
    requires WellFormed(g) && AgentsOk(g, s) && v in s.rec && g.init in g.nbrs[v]
    ensures s.rec[v].pred == g.init
  {
    assert PlaceOk(g, s, v);
    DepthOne(g, v, s.rec[v].depth);
    assert PlaceOk(g, s, s.rec[v].pred);
  }

  lemma DepthOne(g: Graph, v: Id, d: nat)
    requires WellFormed(g) && v in g.nbrs && g.init in g.nbrs[v] && Distance(g, v, d)
    ensures d == 1
  {
    assert Within(g, g.init, 0);
    assert Within(g, v, 1);
    if d > 1 { WithinGrows(g, v, 1, d - 1); }
  }

  // ---------------------------------------------------------------- every step keeps it

  lemma InitialOk(g: Graph)
    requires WellFormed(g)
    ensures TreeInv(g, Initial(g))
  {
    var s := Initial(g);
    assert CountersOk(g, s, g.init) && PlaceOk(g, s, g.init);
  }

  /** An agent that has nobody left to ask is complete, and another step changes nothing. */
  lemma FloodedAgent(g: Graph, s: Net, v: Id)
    requires v in s.rec && v in g.nbrs && g.init in s.rec && CountersOk(g, s, v)
    requires forall x :: x in s.rec[v].nbs ==> LinkOk(g, s, v, x)
    requires CompletelyFlooded(s.rec[v].nbs, s.rec[v].nbs.Keys)
    ensures Complete(s, v) && NextStates(s.rec[v].nbs, s.rec[v].nbs.Keys) == s.rec[v].nbs
    ensures s.rec[v].wire == map[] && s.rec[v].owed == {}
  {
    var nbs := s.rec[v].nbs;
    forall x | x in nbs ensures nbs[x] == Flooded || nbs[x] == AlreadyContacted {
      assert x !in InState(nbs, NotContacted) * nbs.Keys && x !in InState(nbs, Flooding);
    }
    forall x ensures x !in s.rec[v].owed {
      if x in nbs { assert LinkOk(g, s, v, x); }
    }
    NothingChanges(nbs);
  }

  lemma NothingChanges(nbs: Neighbours)
    requires forall x :: x in nbs ==> nbs[x] == Flooded || nbs[x] == AlreadyContacted
    ensures NextStates(nbs, nbs.Keys) == nbs
  {
    var next := NextStates(nbs, nbs.Keys);
    assert forall x :: x in nbs ==> next[x] == nbs[x];
  }

  /** A step of a flooding agent keeps its own links right. */
  lemma FloodKeepsLinks(g: Graph, s: Net, v: Id, t: Net)
    requires TreeInv(g, s) && v in s.rec && !s.rec[v].busy && t.rec.Keys == s.rec.Keys
    requires t.rec[v] == Flood(s.rec[v])
    requires forall x :: x in s.rec && x != v ==> t.rec[x] == s.rec[x].(wire := t.rec[x].wire)
    ensures forall x :: x in t.rec[v].nbs ==> LinkOk(g, t, v, x)
  {
    var a, b := s.rec[v], t.rec[v];
    assert CountersOk(g, s, v);
    forall x | x in b.nbs ensures LinkOk(g, t, v, x) {
      assert LinkOk(g, s, v, x);
      assert b.nbs[x] == NextState(a.nbs[x], true);
      assert x != v;
      if a.nbs[x] == NotContacted {
        if x in s.rec { assert PlaceOk(g, s, x); }
        if x == g.init { NextToInit(g, s, v); }
        assert x in InState(a.nbs, NotContacted) * a.nbs.Keys;
      }
    }
  }

  // ---- between rounds

  lemma NobodyBusy(g: Graph, s: Net, v: Id)
    requires TreeInv(g, s) && !s.rec[g.init].busy && v in s.rec
    ensures !s.rec[v].busy && s.rec[v].owed == {} && s.rec[v].wire == map[]
    decreases s.rec[v].depth
  {
    assert CountersOk(g, s, v) && PlaceOk(g, s, v);
    if v != g.init {
      var p := s.rec[v].pred;
      assert PlaceOk(g, s, p);
      NobodyBusy(g, s, p);
      assert LinkOk(g, s, p, v);
    }
    assert s.rec[v].wire.Keys == {};
  }

  /** Between rounds an agent whose area is not flooded has taken part in every round since
      it was found. */
  lemma OpenAgent(g: Graph, s: Net, v: Id)
    requires TreeInv(g, s) && !s.rec[g.init].busy && v in s.rec && !Complete(s, v)
    ensures s.rec[v].hop + s.rec[v].depth == s.rec[g.init].hop
    decreases s.rec[v].depth
  {
    assert PlaceOk(g, s, v);
    if v != g.init {
      var p := s.rec[v].pred;
      NobodyBusy(g, s, p);
      assert LinkOk(g, s, p, v);
      assert s.rec[p].nbs[v] == Flooding;
      OpenAgent(g, s, p);
    }
  }

  lemma {:induction false} DepthIsLeast(g: Graph, v: Id, d: nat, r: nat)
    requires Distance(g, v, d) && Within(g, v, r)
    ensures d <= r
  {
    if d > r { WithinGrows(g, v, r, d - 1); }
  }

  /** After r rounds everybody at distance r or less has been asked. */
  lemma {:induction false} RoundsReach(g: Graph, s: Net, v: Id, r: nat)
    requires TreeInv(g, s) && !s.rec[g.init].busy && r <= s.rec[g.init].hop && Within(g, v, r)
    ensures v in s.rec
    decreases r
  {
    if r > 0 && !Within(g, v, r - 1) {
      var u :| u in g.nbrs[v] && Within(g, u, r - 1);
      RoundsReach(g, s, u, r - 1);
      NeighbourAsked(g, s, u, v, r);
    } else if r > 0 {
      RoundsReach(g, s, v, r - 1);
    }
  }

  lemma NeighbourAsked(g: Graph, s: Net, u: Id, v: Id, r: nat)
    requires TreeInv(g, s) && !s.rec[g.init].busy && 0 < r <= s.rec[g.init].hop
    requires u in s.rec && Within(g, u, r - 1) && u in g.nbrs && v in g.nbrs[u]
    ensures v in s.rec
  {
    assert PlaceOk(g, s, u);
    DepthIsLeast(g, u, s.rec[u].depth, r - 1);
    NobodyBusy(g, s, u);
    if !Complete(s, u) { OpenAgent(g, s, u); }
    OldNeighbour(g, s, u, v);
  }

  lemma OldNeighbour(g: Graph, s: Net, u: Id, v: Id)
    requires AgentsOk(g, s) && u in s.rec && v in g.nbrs[u] && v in s.rec[u].nbs && LinkOk(g, s, u, v)
    requires s.rec[u].owed == {} && (Complete(s, u) || s.rec[u].hop > 0)
    ensures v in s.rec
  {
    assert CountersOk(g, s, u);
  }

  lemma RoundsCover(g: Graph, s: Net)
    requires TreeInv(g, s) && !s.rec[g.init].busy
    ensures Ball(g, s.rec[g.init].hop) <= s.rec.Keys
  {
    forall v | v in Ball(g, s.rec[g.init].hop) ensures v in s.rec {
      RoundsReach(g, s, v, s.rec[g.init].hop);
    }
  }

  // ---- one group of lemmas for each kind of step

  /** A link is right as long as its two ends agree on it as before. */
  lemma SameLink(g: Graph, s: Net, t: Net, x: Id, y: Id)
    requires x in s.rec && x in t.rec && y in s.rec[x].nbs && y in t.rec[x].nbs && LinkOk(g, s, x, y)
    requires t.rec[x].nbs[y] == s.rec[x].nbs[y] && t.rec[x].hop == s.rec[x].hop
    requires y in t.rec[x].owed <==> y in s.rec[x].owed
    requires y in t.rec[x].wire <==> y in s.rec[x].wire
    requires y in s.rec[x].wire ==> t.rec[x].wire[y] == s.rec[x].wire[y]
    requires y in s.rec ==> y in t.rec && t.rec[y].pred == s.rec[y].pred && (Complete(s, y) ==> Complete(t, y))
    requires Child(s, x, y) ==> t.rec[y].hop == s.rec[y].hop && t.rec[y].busy == s.rec[y].busy
    requires y in t.rec && y !in s.rec ==> t.rec[y].pred != x
    ensures LinkOk(g, t, x, y)
  {
  }

  lemma StartRoundKeeps(g: Graph, s: Net)
    requires TreeInv(g, s) && Enabled(g, s, StartRound)
    ensures TreeInv(g, Apply(g, s, StartRound))
  {
    var t := Apply(g, s, StartRound);
    RoundsCover(g, s);
    NobodyBusy(g, s, g.init);
    assert PlaceOk(g, s, g.init);
    FloodKeepsLinks(g, s, g.init, t);
    FloodKeepsAgents(g, s, g.init, t);
    forall u, v | u in t.rec && v in t.rec[u].nbs ensures LinkOk(g, t, u, v) {
      if u != g.init {
        assert LinkOk(g, s, u, v);
        FloodedStays(g, s, g.init, t, v);
        SameLink(g, s, t, u, v);
      }
    }
  }

  /** A step of v disturbs no completeness. */
  lemma FloodedStays(g: Graph, s: Net, v: Id, t: Net, x: Id)
    requires v in s.rec && t.rec.Keys == s.rec.Keys && t.rec[v] == Flood(s.rec[v])
    requires forall y :: y in s.rec && y != v ==> t.rec[y].nbs == s.rec[y].nbs
    ensures Complete(s, x) ==> Complete(t, x)
  {
    if Complete(s, x) && x == v {
      NothingChanges(s.rec[v].nbs);
    }
  }

  lemma FloodKeepsCounters(g: Graph, s: Net, v: Id, t: Net)
    requires v in s.rec && v in g.nbrs && g.init in s.rec && CountersOk(g, s, v)
    requires !s.rec[v].busy && g.init in t.rec
    requires v in t.rec && t.rec[v] == Flood(s.rec[v])
    requires t.rec[v].hop + t.rec[v].depth <= t.rec[g.init].hop
    ensures CountersOk(g, t, v)
  {
    StepContactsAll(s.rec[v].nbs, s.rec[v].nbs.Keys);
    assert forall x :: x in t.rec[v].nbs ==> t.rec[v].nbs[x] == NextState(s.rec[v].nbs[x], true);
    assert s.rec[v].wire.Keys == {};
  }

  /** Flooding at v keeps every agent's counters and place. */
  lemma FloodKeepsAgents(g: Graph, s: Net, v: Id, t: Net)
    requires TreeInv(g, s) && v in s.rec && !s.rec[v].busy && t.rec.Keys == s.rec.Keys
    requires t.rec[v] == Flood(s.rec[v])
    requires t.rec[v].hop + t.rec[v].depth <= t.rec[g.init].hop
    requires t.rec[g.init].hop >= s.rec[g.init].hop
    requires forall x :: x in s.rec && x != v ==>
      t.rec[x] == s.rec[x] || (t.rec[x] == s.rec[x].(wire := t.rec[x].wire) && t.rec[x].wire.Keys <= s.rec[x].owed)
    ensures AgentsOk(g, t)
  {
    forall x | x in t.rec ensures CountersOk(g, t, x) && PlaceOk(g, t, x) {
      assert CountersOk(g, s, x) && PlaceOk(g, s, x);
      if x == v { FloodKeepsCounters(g, s, v, t); }
      FloodKeepsPlace(g, s, v, t, x);
    }
  }

  lemma FloodKeepsPlace(g: Graph, s: Net, v: Id, t: Net, x: Id)
    requires v in s.rec && x in s.rec && t.rec.Keys == s.rec.Keys && x in g.nbrs && PlaceOk(g, s, x)
    requires t.rec[v] == Flood(s.rec[v])
    requires forall y :: y in s.rec && y != v ==> t.rec[y] == s.rec[y].(wire := t.rec[y].wire)
    ensures PlaceOk(g, t, x)
  {
    var p := s.rec[x].pred;
    if p == v && x != g.init { assert t.rec[v].nbs[x] == NextState(s.rec[v].nbs[x], true); }
    if x == v && x != g.init { assert t.rec[v].nbs[p] == NextState(s.rec[v].nbs[p], true); }
  }

  lemma AnswerKeeps(g: Graph, s: Net, u: Id, v: Id)
    requires TreeInv(g, s) && Enabled(g, s, AnswerArrives(u, v))
    ensures TreeInv(g, Apply(g, s, AnswerArrives(u, v)))
  {
    var t := TakeAnswer(s, u, v);
    assert CountersOk(g, s, u) && LinkOk(g, s, u, v);
    forall x | x in t.rec ensures CountersOk(g, t, x) && PlaceOk(g, t, x) {
      AnswerAgent(g, s, u, v, x);
    }
    AnswerLinks(g, s, u, v);
    RestKept(g, s, t);
  }

  lemma RestKept(g: Graph, s: Net, t: Net)
    requires g.init in s.rec && RoundsOk(g, s) && LogOk(g, s)
    requires t.rec.Keys == s.rec.Keys && t.rec[g.init].hop == s.rec[g.init].hop && t.known == s.known && t.log == s.log
    ensures RoundsOk(g, t) && LogOk(g, t)
  {
  }

  lemma AnswerLinks(g: Graph, s: Net, u: Id, v: Id)
    requires LinksOk(g, s) && Enabled(g, s, AnswerArrives(u, v))
    requires v in s.rec[u].owed && v in s.rec[u].nbs && s.rec[u].nbs[v] == Flooding
    ensures LinksOk(g, TakeAnswer(s, u, v))
  {
    var t := TakeAnswer(s, u, v);
    forall x, y | x in t.rec && y in t.rec[x].nbs ensures LinkOk(g, t, x, y) {
      AnswerLink(g, s, u, v, x, y);
    }
  }

  lemma AnswerAgent(g: Graph, s: Net, u: Id, v: Id, x: Id)
    requires AgentsOk(g, s) && Enabled(g, s, AnswerArrives(u, v)) && x in s.rec
    requires v in s.rec[u].owed && v in s.rec[u].nbs && s.rec[u].nbs[v] == Flooding
    requires s.rec[u].wire[v] == Already ==> Elsewhere(s, u, v)
    ensures var t := TakeAnswer(s, u, v); CountersOk(g, t, x) && PlaceOk(g, t, x)
  {
    assert PlaceOk(g, s, x) && CountersOk(g, s, x);
    if x == u {
      AnsweredCounters(g, s, u, v);
    }
  }

  lemma AnsweredCounters(g: Graph, s: Net, u: Id, v: Id)
    requires Enabled(g, s, AnswerArrives(u, v)) && g.init in s.rec && u in g.nbrs && CountersOk(g, s, u)
    requires v in s.rec[u].owed && v in s.rec[u].nbs && s.rec[u].nbs[v] == Flooding
    ensures CountersOk(g, TakeAnswer(s, u, v), u)
  {
  }

  lemma AnswerLink(g: Graph, s: Net, u: Id, v: Id, x: Id, y: Id)
    requires LinksOk(g, s) && Enabled(g, s, AnswerArrives(u, v)) && x in s.rec && y in s.rec[x].nbs
    requires v in s.rec[u].owed && v in s.rec[u].nbs && s.rec[u].nbs[v] == Flooding
    ensures LinkOk(g, TakeAnswer(s, u, v), x, y)
  {
    var t := TakeAnswer(s, u, v);
    assert LinkOk(g, s, x, y);
    if x != u || y != v {
      SameLink(g, s, t, x, y);
    } else if v != u {
      assert v in s.rec ==> t.rec[v] == s.rec[v];
    }
  }

  lemma EndWaitKeeps(g: Graph, s: Net, u: Id)
    requires TreeInv(g, s) && Enabled(g, s, WaitEnds(u))
    ensures TreeInv(g, Apply(g, s, WaitEnds(u)))
  {
    var t := EndWait(g, s, u);
    if u != g.init { BusyLink(g, s, u); }
    forall x | x in t.rec ensures CountersOk(g, t, x) && PlaceOk(g, t, x) {
      assert CountersOk(g, s, x) && PlaceOk(g, s, x);
    }
    EndWaitLinks(g, s, u);
    RestKept(g, s, t);
  }

  lemma EndWaitLinks(g: Graph, s: Net, u: Id)
    requires TreeInv(g, s) && Enabled(g, s, WaitEnds(u))
    ensures LinksOk(g, EndWait(g, s, u))
  {
    var t := EndWait(g, s, u);
    if u != g.init { BusyLink(g, s, u); }
    forall x, y | x in t.rec && y in t.rec[x].nbs ensures LinkOk(g, t, x, y) {
      EndWaitLink(g, s, u, x, y);
    }
  }

  /** The predecessor of a waiting agent waits for it, and the agent will not tell it that
      its area is flooded. */
  lemma BusyLink(g: Graph, s: Net, u: Id)
    requires TreeInv(g, s) && u in s.rec && s.rec[u].busy && u != g.init
    ensures var p := s.rec[u].pred;
      && p in s.rec && p != u && u in s.rec[p].nbs && s.rec[p].nbs[u] == Flooding
      && u in s.rec[p].owed && u !in s.rec[p].wire && s.rec[u].hop + 1 == s.rec[p].hop
    ensures !IsFlooded(s.rec[u].nbs, s.rec[u].hop)
  {
    assert CountersOk(g, s, u) && PlaceOk(g, s, u);
    assert LinkOk(g, s, s.rec[u].pred, u);
    assert s.rec[u].nbs[s.rec[u].pred] != Flooded;
  }

  lemma EndWaitLink(g: Graph, s: Net, u: Id, x: Id, y: Id)
    requires TreeInv(g, s) && Enabled(g, s, WaitEnds(u)) && x in s.rec && y in s.rec[x].nbs
    ensures LinkOk(g, EndWait(g, s, u), x, y)
  {
    var t := EndWait(g, s, u);
    assert LinkOk(g, s, x, y);
    assert PlaceOk(g, s, u) && CountersOk(g, s, u);
    if u != g.init { BusyLink(g, s, u); }
    if y == u && x == s.rec[u].pred && u != g.init {
    } else {
      if y == u { assert CountersOk(g, s, x); }
      SameLink(g, s, t, x, y);
    }
  }

  lemma ContinueKeeps(g: Graph, s: Net, u: Id, v: Id)
    requires TreeInv(g, s) && Enabled(g, s, ContinueArrives(u, v))
    ensures TreeInv(g, Apply(g, s, ContinueArrives(u, v)))
  {
    var t := TakeContinue(s, u, v);
    ContinueFacts(g, s, u, v);
    FloodKeepsAgents(g, s, v, t);
    FloodKeepsLinks(g, s, v, t);
    forall x, y | x in t.rec && y in t.rec[x].nbs ensures LinkOk(g, t, x, y) {
      if x != v {
        ContinueLink(g, s, u, v, x, y);
      }
    }
    RestKept(g, s, t);
  }

  lemma ContinueFacts(g: Graph, s: Net, u: Id, v: Id)
    requires TreeInv(g, s) && Enabled(g, s, ContinueArrives(u, v))
    ensures u != v && v != g.init && IdleChild(s, u, v) && s.rec[v].hop + 2 == s.rec[u].hop
    ensures v in s.rec[u].nbs && s.rec[u].nbs[v] == Flooding && v in s.rec[u].owed && s.rec[v].owed == {}
    ensures s.rec[v].wire == map[]
    ensures s.rec[v].hop + 1 + s.rec[v].depth <= s.rec[g.init].hop
    ensures s.rec[u].wire.Keys <= s.rec[u].owed
  {
    assert CountersOk(g, s, u) && LinkOk(g, s, u, v) && PlaceOk(g, s, u);
    assert CountersOk(g, s, v) && PlaceOk(g, s, v);
    assert s.rec[v].wire.Keys == {};
  }

  lemma ContinueLink(g: Graph, s: Net, u: Id, v: Id, x: Id, y: Id)
    requires TreeInv(g, s) && Enabled(g, s, ContinueArrives(u, v)) && x in s.rec && x != v && y in s.rec[x].nbs
    ensures LinkOk(g, TakeContinue(s, u, v), x, y)
  {
    ContinueFacts(g, s, u, v);
    if x != u || y != v {
      assert LinkOk(g, s, x, y);
      ContinueOtherLink(g, s, u, v, x, y);
    } else {
      ContinuedLink(g, s, u, v);
    }
  }

  lemma ContinueOtherLink(g: Graph, s: Net, u: Id, v: Id, x: Id, y: Id)
    requires Enabled(g, s, ContinueArrives(u, v)) && u != v && IdleChild(s, u, v)
    requires x in s.rec && x != v && y in s.rec[x].nbs && (x != u || y != v) && LinkOk(g, s, x, y)
    ensures LinkOk(g, TakeContinue(s, u, v), x, y)
  {
    var t := TakeContinue(s, u, v);
    FloodedStays(g, s, v, t, y);
    SameLink(g, s, t, x, y);
  }

  /** The link on which the question came: the agent waits, or has answered. */
  lemma ContinuedLink(g: Graph, s: Net, u: Id, v: Id)
    requires TreeInv(g, s) && Enabled(g, s, ContinueArrives(u, v)) && u != v && v != g.init
    requires IdleChild(s, u, v) && s.rec[v].hop + 2 == s.rec[u].hop
    requires v in s.rec[u].nbs && s.rec[u].nbs[v] == Flooding && v in s.rec[u].owed
    ensures LinkOk(g, TakeContinue(s, u, v), u, v)
  {
    if CompletelyFlooded(s.rec[v].nbs, s.rec[v].nbs.Keys) {
      assert CountersOk(g, s, v);
      forall z | z in s.rec[v].nbs ensures LinkOk(g, s, v, z) {
      }
      FloodedAgent(g, s, v);
    }
  }

  lemma SearchKeeps(g: Graph, s: Net, u: Id, v: Id)
    requires TreeInv(g, s) && Enabled(g, s, SearchArrives(u, v))
    ensures TreeInv(g, Apply(g, s, SearchArrives(u, v)))
  {
    SearchFacts(g, s, u, v);
    SearchAgents(g, s, u, v);
    SearchLinks(g, s, u, v);
    SearchLog(g, s, u, v);
  }

  lemma SearchAgents(g: Graph, s: Net, u: Id, v: Id)
    requires TreeInv(g, s) && Enabled(g, s, SearchArrives(u, v))
    ensures AgentsOk(g, TakeSearch(g, s, u, v))
  {
    var t := TakeSearch(g, s, u, v);
    forall x | x in t.rec ensures CountersOk(g, t, x) && PlaceOk(g, t, x) {
      SearchAgent(g, s, u, v, x);
    }
  }

  lemma SearchLinks(g: Graph, s: Net, u: Id, v: Id)
    requires TreeInv(g, s) && Enabled(g, s, SearchArrives(u, v))
    ensures LinksOk(g, TakeSearch(g, s, u, v))
  {
    var t := TakeSearch(g, s, u, v);
    forall x, y | x in t.rec && y in t.rec[x].nbs ensures LinkOk(g, t, x, y) {
      SearchLink(g, s, u, v, x, y);
    }
  }

  lemma SearchLog(g: Graph, s: Net, u: Id, v: Id)
    requires g.init in s.rec && RoundsOk(g, s) && LogOk(g, s) && Enabled(g, s, SearchArrives(u, v)) && v != g.init
    ensures var t := TakeSearch(g, s, u, v); g.init in t.rec && RoundsOk(g, t) && LogOk(g, t)
  {
    var t := TakeSearch(g, s, u, v);
    forall w ensures w in t.known <==> w in t.log {
      assert w in s.known <==> w in s.log;
    }
  }

  lemma SearchFacts(g: Graph, s: Net, u: Id, v: Id)
    requires TreeInv(g, s) && Enabled(g, s, SearchArrives(u, v))
    ensures u != v && v != g.init && v in s.rec[u].nbs && s.rec[u].nbs[v] == Flooding && v in s.rec[u].owed
    ensures s.rec[u].hop == 1
    ensures v in s.rec ==> s.rec[v].pred != u
    ensures v in s.known <==> v in s.rec
    ensures u in g.nbrs[v] && s.rec[u].depth + 1 <= s.rec[g.init].hop
    ensures v !in s.rec ==> Distance(g, v, s.rec[u].depth + 1)
  {
    assert CountersOk(g, s, u) && LinkOk(g, s, u, v) && PlaceOk(g, s, u);
    if v !in s.rec { NewcomerDistance(g, s, u, v); }
  }

  lemma NewcomerDistance(g: Graph, s: Net, u: Id, v: Id)
    requires WellFormed(g) && g.init in s.rec && RoundsOk(g, s) && u in s.rec && u in g.nbrs && v in g.nbrs[u]
    requires v !in s.rec
    requires Distance(g, u, s.rec[u].depth) && s.rec[u].depth + 1 <= s.rec[g.init].hop
    ensures Distance(g, v, s.rec[u].depth + 1)
  {
    var d := s.rec[u].depth;
    OneFurther(g, u, v, d);
    if Within(g, v, d) { NearIsKnown(g, s, v, d); }
  }

  lemma OneFurther(g: Graph, u: Id, v: Id, d: nat)
    requires v in g.nbrs && u in g.nbrs[v] && Within(g, u, d)
    ensures Within(g, v, d + 1)
  {
  }

  lemma {:induction false} NearIsKnown(g: Graph, s: Net, v: Id, d: nat)
    requires g.init in s.rec && RoundsOk(g, s) && d < s.rec[g.init].hop && Within(g, v, d)
    ensures v in s.rec
  {
    WithinGrows(g, v, d, s.rec[g.init].hop - 1);
    assert v in Ball(g, s.rec[g.init].hop - 1);
  }

  lemma SearchAgent(g: Graph, s: Net, u: Id, v: Id, x: Id)
    requires TreeInv(g, s) && Enabled(g, s, SearchArrives(u, v)) && x in TakeSearch(g, s, u, v).rec
    ensures var t := TakeSearch(g, s, u, v); CountersOk(g, t, x) && PlaceOk(g, t, x)
  {
    SearchFacts(g, s, u, v);
    if x in s.rec {
      assert CountersOk(g, s, x) && PlaceOk(g, s, x);
      SearchShape(g, s, u, v);
      OldPlace(g, s, TakeSearch(g, s, u, v), x);
      OldCounters(g, s, TakeSearch(g, s, u, v), x);
    } else {
      assert PlaceOk(g, s, u);
      NewAgent(g, s, u, v);
    }
  }

  /** searchService changes the messages of the other agents at most. */
  lemma SearchShape(g: Graph, s: Net, u: Id, v: Id)
    requires Enabled(g, s, SearchArrives(u, v)) && (v in s.known <==> v in s.rec)
    ensures var t := TakeSearch(g, s, u, v);
      s.rec.Keys <= t.rec.Keys
      && (forall y :: y in s.rec ==>
            t.rec[y] == s.rec[y].(wire := t.rec[y].wire) && t.rec[y].wire.Keys == s.rec[y].wire.Keys)
  {
  }

  lemma NewAgent(g: Graph, s: Net, u: Id, v: Id)
    requires WellFormed(g) && Enabled(g, s, SearchArrives(u, v)) && v !in s.known && v !in s.rec && g.init in s.rec
    requires u in g.nbrs[v] && v in s.rec[u].nbs && s.rec[u].nbs[v] == Flooding
    requires Distance(g, v, s.rec[u].depth + 1) && s.rec[u].depth + 1 <= s.rec[g.init].hop
    ensures var t := TakeSearch(g, s, u, v); v in t.rec && g.init in t.rec && CountersOk(g, t, v) && PlaceOk(g, t, v)
  {
  }

  lemma OldCounters(g: Graph, s: Net, t: Net, x: Id)
    requires g.init in s.rec && x in s.rec && x in g.nbrs && CountersOk(g, s, x) && s.rec.Keys <= t.rec.Keys
    requires t.rec[x] == s.rec[x].(wire := t.rec[x].wire) && t.rec[x].wire.Keys <= s.rec[x].owed
    requires t.rec[g.init].hop == s.rec[g.init].hop
    ensures CountersOk(g, t, x)
  {
  }

  lemma OldPlace(g: Graph, s: Net, t: Net, x: Id)
    requires x in s.rec && x in g.nbrs && PlaceOk(g, s, x) && s.rec.Keys <= t.rec.Keys
    requires forall y :: y in s.rec ==> t.rec[y] == s.rec[y].(wire := t.rec[y].wire)
    ensures PlaceOk(g, t, x)
  {
  }

  lemma SearchLink(g: Graph, s: Net, u: Id, v: Id, x: Id, y: Id)
    requires TreeInv(g, s) && Enabled(g, s, SearchArrives(u, v))
    requires x in TakeSearch(g, s, u, v).rec && y in TakeSearch(g, s, u, v).rec[x].nbs
    ensures LinkOk(g, TakeSearch(g, s, u, v), x, y)
  {
    SearchFacts(g, s, u, v);
    if x in s.rec {
      assert LinkOk(g, s, x, y);
      OldLink(g, s, u, v, x, y);
    } else {
      ParentElsewhere(g, s, u, v);
    }
  }

  lemma OldLink(g: Graph, s: Net, u: Id, v: Id, x: Id, y: Id)
    requires Enabled(g, s, SearchArrives(u, v)) && x in s.rec && y in s.rec[x].nbs && LinkOk(g, s, x, y)
    requires u != v && v in s.rec[u].owed && s.rec[u].hop == 1 && (v in s.known <==> v in s.rec) && !Child(s, u, v)
    requires v in s.rec[u].nbs && s.rec[u].nbs[v] == Flooding
    ensures x in TakeSearch(g, s, u, v).rec && y in TakeSearch(g, s, u, v).rec[x].nbs
    ensures LinkOk(g, TakeSearch(g, s, u, v), x, y)
  {
    if x != u || y != v { SameLink(g, s, TakeSearch(g, s, u, v), x, y); }
  }

  lemma ParentElsewhere(g: Graph, s: Net, u: Id, v: Id)
    requires AgentsOk(g, s) && u in s.rec && v !in s.rec
    ensures s.rec[u].pred != v
  {
    assert PlaceOk(g, s, u);
  }

  // ---------------------------------------------------------------- where the servers are

  function Holds(s: Net, p: Place): seq<Id> {
    match p
    case OnLink(u, v) => if Asked(s, u, v) && s.rec[u].wire[v].Found? then s.rec[u].wire[v].who else []
    case Pending(u) => if u in s.rec then s.rec[u].found else []
    case Collected => s.collected
  }

  /** The list holds each of its agents once, and it is where these agents' servers are. */
  ghost predicate Carries(place: map<Id, Place>, who: seq<Id>, p: Place) {
    && Distinct(who)
    && (forall w :: w in who ==> w in place && place[w] == p)
  }

  /** The servers of every agent that found some are in exactly one place, once. */
  ghost predicate PlacesOk(g: Graph, s: Net) {
    && (forall w :: w in s.place <==> w in g.offers && w in s.known)
    && (forall w :: w in s.place ==> w in Holds(s, s.place[w]))
    && (forall p {:trigger Holds(s, p)} :: Carries(s.place, Holds(s, p), p))
  }

  /** No earlier round met a server, and servers are collected only when a round ends. */
  ghost predicate SearchingOk(g: Graph, s: Net)
    requires g.init in s.rec
  {
    && (forall w :: w in g.offers && s.rec[g.init].hop > 0 ==> !Within(g, w, s.rec[g.init].hop - 1))
    && (s.rec[g.init].busy ==> s.collected == [])
  }

  ghost predicate Inv(g: Graph, s: Net) {
    TreeInv(g, s) && PlacesOk(g, s) && SearchingOk(g, s)
  }

  /** Between rounds everything found is collected. */
  lemma NothingUnderWay(g: Graph, s: Net)
    requires TreeInv(g, s) && PlacesOk(g, s) && !s.rec[g.init].busy
    ensures forall w :: w in s.collected <==> w in g.offers && w in s.known
  {
    forall p | p != Collected ensures Holds(s, p) == [] {
      if p.u in s.rec {
        NobodyBusy(g, s, p.u);
        assert CountersOk(g, s, p.u);
      }
    }
    assert Carries(s.place, Holds(s, Collected), Collected);
  }

  /** A step that moves no server. */
  lemma NothingMoves(g: Graph, s: Net, t: Net)
    requires PlacesOk(g, s) && t.place == s.place && t.known == s.known
    requires forall p :: Holds(t, p) == Holds(s, p)
    ensures PlacesOk(g, t)
  {
    forall p ensures Carries(t.place, Holds(t, p), p) {
      assert Carries(s.place, Holds(s, p), p);
    }
  }

  lemma BothDistinct(a: seq<Id>, b: seq<Id>, c: seq<Id>)
    requires c == a + b && forall w :: w in a ==> w !in b
    requires Distinct(a) && Distinct(b)
    ensures Distinct(c)
  {
    forall i, j | 0 <= i < j < |c| ensures c[i] != c[j] {
      if i < |a| && j < |a| { assert c[i] == a[i] && c[j] == a[j]; }
      else if i < |a| { assert c[i] in a && c[j] in b; }
    }
  }

  /** A step that moves the servers of one place to another. */
  lemma ServersMove(g: Graph, s: Net, t: Net, from: Place, to: Place)
    requires PlacesOk(g, s) && t.place == Move(s.place, Holds(s, from), to) && t.known == s.known && from != to
    requires Holds(t, to) == Holds(s, to) + Holds(s, from) && Holds(t, from) == []
    requires forall p :: p != from && p != to ==> Holds(t, p) == Holds(s, p)
    ensures PlacesOk(g, t)
  {
    assert Carries(s.place, Holds(s, from), from) && Carries(s.place, Holds(s, to), to);
    BothDistinct(Holds(s, to), Holds(s, from), Holds(t, to));
    forall p ensures Carries(t.place, Holds(t, p), p) {
      assert Carries(s.place, Holds(s, p), p);
    }
  }

  /** A step in which a new agent finds servers. */
  lemma ServersAppear(g: Graph, s: Net, t: Net, v: Id, to: Place)
    requires PlacesOk(g, s) && v in g.offers && v !in s.known && t.known == s.known + {v}
    requires t.place == s.place[v := to] && Holds(s, to) == [] && Holds(t, to) == [v]
    requires forall p :: p != to ==> Holds(t, p) == Holds(s, p)
    ensures PlacesOk(g, t)
  {
    forall p ensures Carries(t.place, Holds(t, p), p) {
      assert Carries(s.place, Holds(s, p), p);
    }
  }

  lemma NobodyAppears(g: Graph, s: Net, t: Net, v: Id)
    requires PlacesOk(g, s) && v !in g.offers && t.known == s.known + {v} && t.place == s.place
    requires forall p :: Holds(t, p) == Holds(s, p)
    ensures PlacesOk(g, t)
  {
    forall p ensures Carries(t.place, Holds(t, p), p) {
      assert Carries(s.place, Holds(s, p), p);
    }
  }

  lemma StartRoundPlaces(g: Graph, s: Net)
    requires Inv(g, s) && Enabled(g, s, StartRound)
    ensures PlacesOk(g, Apply(g, s, StartRound)) && SearchingOk(g, Apply(g, s, StartRound))
  {
    var t := Apply(g, s, StartRound);
    NobodyBusy(g, s, g.init);
    NothingMoves(g, s, t);
    NothingUnderWay(g, s);
    forall w | Within(g, w, s.rec[g.init].hop) ensures w in s.rec {
      RoundsReach(g, s, w, s.rec[g.init].hop);
    }
  }

  lemma SearchPlaces(g: Graph, s: Net, u: Id, v: Id)
    requires Inv(g, s) && Enabled(g, s, SearchArrives(u, v))
    ensures PlacesOk(g, Apply(g, s, SearchArrives(u, v))) && SearchingOk(g, Apply(g, s, SearchArrives(u, v)))
  {
    var t := TakeSearch(g, s, u, v);
    SearchFacts(g, s, u, v);
    if v in s.known {
      NothingMoves(g, s, t);
    } else if v in g.offers {
      ServersAppear(g, s, t, v, OnLink(u, v));
    } else {
      NobodyAppears(g, s, t, v);
    }
  }

  lemma ContinuePlaces(g: Graph, s: Net, u: Id, v: Id)
    requires Inv(g, s) && Enabled(g, s, ContinueArrives(u, v))
    ensures PlacesOk(g, Apply(g, s, ContinueArrives(u, v))) && SearchingOk(g, Apply(g, s, ContinueArrives(u, v)))
  {
    ContinueFacts(g, s, u, v);
    ContinueHolds(g, s, u, v);
    NothingMoves(g, s, TakeContinue(s, u, v));
  }

  lemma ContinueHolds(g: Graph, s: Net, u: Id, v: Id)
    requires Enabled(g, s, ContinueArrives(u, v)) && u != v && s.rec[v].wire == map[] && s.rec[v].pred == u
    ensures forall p :: Holds(TakeContinue(s, u, v), p) == Holds(s, p)
  {
  }

  lemma AnswerPlaces(g: Graph, s: Net, u: Id, v: Id)
    requires Inv(g, s) && Enabled(g, s, AnswerArrives(u, v))
    ensures PlacesOk(g, Apply(g, s, AnswerArrives(u, v))) && SearchingOk(g, Apply(g, s, AnswerArrives(u, v)))
  {
    var t := TakeAnswer(s, u, v);
    if s.rec[u].wire[v].Found? {
      ServersMove(g, s, t, OnLink(u, v), Pending(u));
    } else {
      NothingMoves(g, s, t);
    }
  }

  lemma EndWaitPlaces(g: Graph, s: Net, u: Id)
    requires Inv(g, s) && Enabled(g, s, WaitEnds(u))
    ensures PlacesOk(g, Apply(g, s, WaitEnds(u))) && SearchingOk(g, Apply(g, s, WaitEnds(u)))
  {
    if u == g.init {
      ServersMove(g, s, EndWait(g, s, u), Pending(u), Collected);
    } else {
      BusyLink(g, s, u);
      ReportPlaces(g, s, u);
    }
  }

  lemma ReportPlaces(g: Graph, s: Net, u: Id)
    requires PlacesOk(g, s) && Enabled(g, s, WaitEnds(u)) && u != g.init && s.rec[u].pred != u
    requires u !in s.rec[s.rec[u].pred].wire
    ensures PlacesOk(g, EndWait(g, s, u))
  {
    var t := EndWait(g, s, u);
    var a := s.rec[u];
    var to := OnLink(a.pred, u);
    if a.found != [] {
      assert Holds(t, to) == a.found && Holds(s, to) == [];
      ServersMove(g, s, t, Pending(u), to);
    } else {
      assert t.place == s.place;
      NothingMoves(g, s, t);
    }
  }

  // ---------------------------------------------------------------- every run

  lemma InitialInv(g: Graph)
    requires WellFormed(g)
    ensures Inv(g, Initial(g))
  {
    InitialOk(g);
  }

  lemma StepKeepsInv(g: Graph, s: Net, step: Step)
    requires Inv(g, s) && Enabled(g, s, step)
    ensures Inv(g, Apply(g, s, step))
  {
    match step
    case StartRound => StartRoundKeeps(g, s); StartRoundPlaces(g, s);
    case SearchArrives(u, v) => SearchKeeps(g, s, u, v); SearchPlaces(g, s, u, v);
    case ContinueArrives(u, v) => ContinueKeeps(g, s, u, v); ContinuePlaces(g, s, u, v);
    case AnswerArrives(u, v) => AnswerKeeps(g, s, u, v); AnswerPlaces(g, s, u, v);
    case WaitEnds(u) => EndWaitKeeps(g, s, u); EndWaitPlaces(g, s, u);
  }

  /** A run of the protocol: the states it goes through. */
  ghost predicate IsRun(g: Graph, run: seq<Net>, steps: seq<Step>) {
    && g.init in g.nbrs && |run| == |steps| + 1 && run[0] == Initial(g)
    && forall i :: 0 <= i < |steps| ==> Enabled(g, run[i], steps[i]) && run[i + 1] == Apply(g, run[i], steps[i])
  }

  lemma RunKeepsInv(g: Graph, run: seq<Net>, steps: seq<Step>, i: nat)
    requires WellFormed(g) && IsRun(g, run, steps) && i < |run|
    ensures Inv(g, run[i])
  {
    if i == 0 {
      InitialInv(g);
    } else {
      RunKeepsInv(g, run, steps, i - 1);
      StepKeepsInv(g, run[i - 1], steps[i - 1]);
    }
  }

  /** Between rounds, after r of them, submit_local has run once at each agent at distance 1
      to r, and nowhere else. */
  lemma {:induction false} RoundsSearchExactly(g: Graph, run: seq<Net>, steps: seq<Step>, i: nat)
    requires WellFormed(g) && IsRun(g, run, steps) && i < |run|
    requires g.init in run[i].rec && !run[i].rec[g.init].busy
    ensures Distinct(run[i].log)
    ensures forall v :: v in run[i].log <==> v != g.init && Within(g, v, run[i].rec[g.init].hop)
  {
    RunKeepsInv(g, run, steps, i);
    var s := run[i];
    forall v ensures v in s.log <==> v != g.init && Within(g, v, s.rec[g.init].hop) {
      assert v in s.log <==> v in s.known;
      if v in s.rec {
        assert PlaceOk(g, s, v) && CountersOk(g, s, v);
        WithinGrows(g, v, s.rec[v].depth, s.rec[g.init].hop);
      } else if Within(g, v, s.rec[g.init].hop) {
        RoundsReach(g, s, v, s.rec[g.init].hop);
      }
    }
  }

  /** At any moment, also during a round, submit_local has run at most once anywhere, never
      beyond the current distance, and the initiator is not asked to search. */
  lemma {:induction false} SearchedAtMostOnce(g: Graph, run: seq<Net>, steps: seq<Step>, i: nat, v: Id)
    requires WellFormed(g) && IsRun(g, run, steps) && i < |run|
    ensures Distinct(run[i].log)
    ensures g.init in run[i].rec && (v in run[i].log ==> v != g.init && Within(g, v, run[i].rec[g.init].hop))
    ensures Asked(run[i], v, g.init) ==> run[i].rec[v].wire[g.init] != Search
  {
    RunKeepsInv(g, run, steps, i);
    var s := run[i];
    if v in s.rec {
      assert PlaceOk(g, s, v) && CountersOk(g, s, v);
      WithinGrows(g, v, s.rec[v].depth, s.rec[g.init].hop);
      if Asked(s, v, g.init) { assert LinkOk(g, s, v, g.init); }
    }
  }

  /** n predecessors up from v. */
  ghost function Ancestor(s: Net, v: Id, n: nat): Id
    decreases n
  {
    if n == 0 || v !in s.rec then v else Ancestor(s, s.rec[v].pred, n - 1)
  }

  /** The predecessor links form a tree rooted at the initiator, along shortest paths. */
  lemma {:induction false} PredecessorsLeadToInitiator(g: Graph, s: Net, v: Id)
    requires Inv(g, s) && v in s.rec
    ensures Distance(g, v, s.rec[v].depth) && Ancestor(s, v, s.rec[v].depth) == g.init
    ensures v != g.init ==>
      s.rec[v].pred in s.rec && s.rec[v].pred in g.nbrs[v] && s.rec[s.rec[v].pred].depth + 1 == s.rec[v].depth
    decreases s.rec[v].depth
  {
    assert PlaceOk(g, s, v);
    if v != g.init { PredecessorsLeadToInitiator(g, s, s.rec[v].pred); }
  }

  /** Between rounds stopFlooding, passed on from the initiator, reaches every agent that was
      contacted from its predecessor and from nobody else. */
  lemma StopReachesOnce(g: Graph, s: Net, u: Id, v: Id)
    requires Inv(g, s) && !s.rec[g.init].busy && u in s.rec
    ensures v in StopTargets(s.rec[u].nbs) <==> v in s.known && s.rec[v].pred == u
  {
    NobodyBusy(g, s, u);
    assert CountersOk(g, s, u) && PlaceOk(g, s, u);
    if v in s.rec[u].nbs { assert LinkOk(g, s, u, v); }
    if v in s.rec { assert PlaceOk(g, s, v); }
  }

  /** What a round collects are the servers of all agents at the least distance at which
      there are any, each once. */
  lemma {:induction false} NearestServers(g: Graph, run: seq<Net>, steps: seq<Step>, i: nat)
    requires WellFormed(g) && IsRun(g, run, steps) && i < |run|
    requires g.init in run[i].rec && !run[i].rec[g.init].busy && run[i].rec[g.init].hop > 0
    ensures Distinct(run[i].collected)
    ensures forall w :: w in run[i].collected <==> w in g.offers && Distance(g, w, run[i].rec[g.init].hop)
    ensures forall w :: w in g.offers ==> !Within(g, w, run[i].rec[g.init].hop - 1)
  {
    RunKeepsInv(g, run, steps, i);
    var s := run[i];
    NothingUnderWay(g, s);
    RoundsSearchExactly(g, run, steps, i);
    assert Carries(s.place, Holds(s, Collected), Collected);
    forall w ensures w in s.collected <==> w in g.offers && Distance(g, w, s.rec[g.init].hop) {
      assert w in s.known <==> w in s.log;
    }
  }

  ghost predicate Reachable(g: Graph, v: Id) {
    exists r: nat :: Within(g, v, r)
  }

  /** When the initiator stops without a server it has done its eight rounds and nobody at
      distance eight or less has one, or nobody that can be reached at all has one. */
  lemma {:induction false} StopsWithGoodReason(g: Graph, run: seq<Net>, steps: seq<Step>, i: nat)
    requires WellFormed(g) && IsRun(g, run, steps) && i < |run|
    requires g.init in run[i].rec && !run[i].rec[g.init].busy && run[i].collected == []
    requires IsFlooded(run[i].rec[g.init].nbs, run[i].rec[g.init].hop)
    ensures
      || (run[i].rec[g.init].hop == 8 && forall w :: w in g.offers ==> !Within(g, w, 8))
      || (forall v :: Reachable(g, v) ==> v in run[i].rec && v !in g.offers)
  {
    RunKeepsInv(g, run, steps, i);
    var s := run[i];
    NothingUnderWay(g, s);
    RoundsSearchExactly(g, run, steps, i);
    assert forall w :: w in s.log ==> w !in g.offers;
    if s.rec[g.init].hop < MAX_HOPS {
      forall v | Reachable(g, v) ensures v in s.rec && v !in g.offers {
        var r: nat :| Within(g, v, r);
        FloodedReachesAll(g, s, v, r);
        assert v in s.log <==> v in s.known;
      }
    }
  }

  /** Completeness: when somebody at distance eight or less offers the service, a search that
      has no further round to start has collected the servers at the least distance. */
  lemma FindsNearest(g: Graph, run: seq<Net>, steps: seq<Step>, i: nat, w: Id) returns (d: nat)
    requires WellFormed(g) && IsRun(g, run, steps) && i < |run| && w in g.offers && Within(g, w, 8)
    requires g.init in run[i].rec && !run[i].rec[g.init].busy && !Enabled(g, run[i], StartRound)
    ensures run[i].collected != [] && Distinct(run[i].collected)
    ensures 0 < d <= 8 && forall v :: v in run[i].collected <==> v in g.offers && Distance(g, v, d)
    ensures forall v :: v in g.offers ==> !Within(g, v, d - 1)
  {
    var s := run[i];
    d := s.rec[g.init].hop;
    RunKeepsInv(g, run, steps, i);
    if s.collected == [] { NotForNothing(g, run, steps, i, w); }
    AfterSomeRound(g, run, steps, i, s.collected[0]);
    NearestServers(g, run, steps, i);
  }

  lemma NotForNothing(g: Graph, run: seq<Net>, steps: seq<Step>, i: nat, w: Id)
    requires WellFormed(g) && IsRun(g, run, steps) && i < |run| && w in g.offers && Within(g, w, 8)
    requires g.init in run[i].rec && !run[i].rec[g.init].busy && run[i].collected == []
    ensures !IsFlooded(run[i].rec[g.init].nbs, run[i].rec[g.init].hop)
  {
    if IsFlooded(run[i].rec[g.init].nbs, run[i].rec[g.init].hop) {
      StopsWithGoodReason(g, run, steps, i);
      assert Reachable(g, w);
    }
  }

  lemma AfterSomeRound(g: Graph, run: seq<Net>, steps: seq<Step>, i: nat, v: Id)
    requires WellFormed(g) && IsRun(g, run, steps) && i < |run| && v in run[i].collected
    requires g.init in run[i].rec && !run[i].rec[g.init].busy
    ensures run[i].rec[g.init].hop > 0
  {
    RunKeepsInv(g, run, steps, i);
    NothingUnderWay(g, run[i]);
    RoundsSearchExactly(g, run, steps, i);
    assert v in run[i].known && v in run[i].log;
  }

  lemma {:induction false} FloodedReachesAll(g: Graph, s: Net, v: Id, r: nat)
    requires TreeInv(g, s) && !s.rec[g.init].busy && Complete(s, g.init) && Within(g, v, r)
    ensures v in s.rec
    decreases r
  {
    if r > 0 {
      if Within(g, v, r - 1) {
        FloodedReachesAll(g, s, v, r - 1);
      } else {
        var u :| u in g.nbrs[v] && Within(g, u, r - 1);
        FloodedReachesAll(g, s, u, r - 1);
        AllComplete(g, s, u);
        NobodyBusy(g, s, u);
        assert CountersOk(g, s, u) && LinkOk(g, s, u, v);
      }
    }
  }

  lemma AllComplete(g: Graph, s: Net, v: Id)
    requires TreeInv(g, s) && !s.rec[g.init].busy && Complete(s, g.init) && v in s.rec
    ensures Complete(s, v)
    decreases s.rec[v].depth
  {
    assert PlaceOk(g, s, v);
    if v != g.init {
      AllComplete(g, s, s.rec[v].pred);
      assert LinkOk(g, s, s.rec[v].pred, v);
    }
  }

  // ---------------------------------------------------------------- a small network is searched soon

  /** The predecessor knows, or is being told, that the area of v is flooded. */
  predicate LastWord(s: Net, v: Id) {
    && v in s.rec && s.rec[v].pred in s.rec && v in s.rec[s.rec[v].pred].nbs
    && (s.rec[s.rec[v].pred].nbs[v] == Flooded
        || (v in s.rec[s.rec[v].pred].wire && s.rec[s.rec[v].pred].wire[v] == FloodedArea))
  }

  /** Nobody is further than d from the initiator. */
  ghost predicate Radius(g: Graph, d: nat) {
    forall v :: Reachable(g, v) ==> Within(g, v, d)
  }

  /** An agent at depth e takes part in 2 * (d - e) + 1 steps at most, until it has told that
      its area is flooded. */
  predicate HopOk(g: Graph, s: Net, d: nat, v: Id)
    requires v in s.rec
  {
    s.rec[v].hop <= 2 * (d - s.rec[v].depth) + 1 || (v != g.init && LastWord(s, v))
  }

  ghost predicate HopsOk(g: Graph, s: Net, d: nat) {
    forall v {:trigger HopOk(g, s, d, v)} :: v in s.rec ==> HopOk(g, s, d, v)
  }

  lemma DepthInRadius(g: Graph, s: Net, d: nat, v: Id)
    requires Radius(g, d) && v in s.rec && v in g.nbrs && PlaceOk(g, s, v)
    ensures s.rec[v].depth <= d
  {
    assert Reachable(g, v);
    DepthIsLeast(g, v, s.rec[v].depth, d);
  }

  /** An idle agent that has somebody left to ask is within its bound. */
  lemma NextHop(g: Graph, s: Net, d: nat, v: Id)
    requires TreeInv(g, s) && Radius(g, d) && HopsOk(g, s, d) && v in s.rec && !s.rec[v].busy
    requires exists x :: x in s.rec[v].nbs && (s.rec[v].nbs[x] == NotContacted || s.rec[v].nbs[x] == Flooding)
    ensures s.rec[v].hop <= 2 * (d - s.rec[v].depth)
  {
    assert CountersOk(g, s, v) && PlaceOk(g, s, v);
    DepthInRadius(g, s, d, v);
    var x :| x in s.rec[v].nbs && (s.rec[v].nbs[x] == NotContacted || s.rec[v].nbs[x] == Flooding);
    if s.rec[v].nbs[x] == Flooding {
      assert LinkOk(g, s, v, x);
      assert s.rec[v].wire.Keys == {} && Child(s, v, x);
      assert PlaceOk(g, s, x) && HopOk(g, s, d, x);
      DepthInRadius(g, s, d, x);
    }
  }

  lemma StepKeepsHops(g: Graph, s: Net, d: nat, step: Step)
    requires Inv(g, s) && Enabled(g, s, step) && Radius(g, d) && HopsOk(g, s, d)
    ensures HopsOk(g, Apply(g, s, step), d)
  {
    StepKeepsInv(g, s, step);
    var t := Apply(g, s, step);
    forall x | x in t.rec ensures HopOk(g, t, d, x) {
      match step
      case StartRound => StartRoundHop(g, s, d, x);
      case SearchArrives(u, v) => SearchHop(g, s, d, u, v, x);
      case ContinueArrives(u, v) => ContinueHop(g, s, d, u, v, x);
      case AnswerArrives(u, v) => AnswerHop(g, s, d, u, v, x);
      case WaitEnds(u) => EndWaitHop(g, s, d, u, x);
    }
  }

  lemma StartRoundHop(g: Graph, s: Net, d: nat, x: Id)
    requires TreeInv(g, s) && Enabled(g, s, StartRound) && Radius(g, d) && HopsOk(g, s, d) && x in s.rec
    ensures HopOk(g, Apply(g, s, StartRound), d, x)
  {
    var a := s.rec[g.init];
    NobodyBusy(g, s, g.init);
    assert HopOk(g, s, d, x) && PlaceOk(g, s, x) && PlaceOk(g, s, g.init);
    if x == g.init {
      var y :| y in a.nbs && a.nbs[y] != Flooded;
      assert CountersOk(g, s, g.init) && LinkOk(g, s, g.init, y);
      if a.nbs[y] == AlreadyContacted { NextToInit(g, s, y); }
      NextHop(g, s, d, g.init);
    } else if LastWord(s, x) && s.rec[x].pred == g.init {
      assert Flood(a).nbs[x] == NextState(a.nbs[x], true);
    }
  }

  lemma SearchHop(g: Graph, s: Net, d: nat, u: Id, v: Id, x: Id)
    requires TreeInv(g, s) && Enabled(g, s, SearchArrives(u, v)) && Radius(g, d) && HopsOk(g, s, d)
    requires AgentsOk(g, TakeSearch(g, s, u, v)) && x in TakeSearch(g, s, u, v).rec
    ensures HopOk(g, TakeSearch(g, s, u, v), d, x)
  {
    SearchFacts(g, s, u, v);
    if x in s.rec {
      assert HopOk(g, s, d, x) && PlaceOk(g, s, x);
    } else {
      NewcomerHop(g, TakeSearch(g, s, u, v), d, x);
    }
  }

  lemma NewcomerHop(g: Graph, t: Net, d: nat, x: Id)
    requires AgentsOk(g, t) && Radius(g, d) && x in t.rec && t.rec[x].hop == 0
    ensures HopOk(g, t, d, x)
  {
    assert PlaceOk(g, t, x);
    DepthInRadius(g, t, d, x);
  }

  lemma ContinueHop(g: Graph, s: Net, d: nat, u: Id, v: Id, x: Id)
    requires TreeInv(g, s) && Enabled(g, s, ContinueArrives(u, v)) && Radius(g, d) && HopsOk(g, s, d) && x in s.rec
    ensures HopOk(g, TakeContinue(s, u, v), d, x)
  {
    ContinueFacts(g, s, u, v);
    assert HopOk(g, s, d, x) && PlaceOk(g, s, x) && PlaceOk(g, s, v);
    if x == v {
      ContinuedHop(g, s, d, u, v);
    } else {
      OtherHop(g, s, d, u, v, x);
    }
  }

  lemma ContinuedHop(g: Graph, s: Net, d: nat, u: Id, v: Id)
    requires TreeInv(g, s) && Enabled(g, s, ContinueArrives(u, v)) && Radius(g, d) && HopsOk(g, s, d)
    requires u != v && v != g.init && IdleChild(s, u, v) && v in s.rec[u].nbs
    ensures HopOk(g, TakeContinue(s, u, v), d, v)
  {
    var a := s.rec[v];
    NobodyLeft(a.nbs, a.nbs.Keys);
    if !CompletelyFlooded(a.nbs, a.nbs.Keys) { NextHop(g, s, d, v); }
  }

  lemma OtherHop(g: Graph, s: Net, d: nat, u: Id, v: Id, x: Id)
    requires Enabled(g, s, ContinueArrives(u, v)) && u != v && IdleChild(s, u, v) && s.rec[v].wire == map[]
    requires x in s.rec && x != v && HopOk(g, s, d, x)
    ensures HopOk(g, TakeContinue(s, u, v), d, x)
  {
    var a := s.rec[v];
    if LastWord(s, x) && s.rec[x].pred == v {
      assert Flood(a).nbs[x] == NextState(a.nbs[x], true);
    }
  }

  lemma AnswerHop(g: Graph, s: Net, d: nat, u: Id, v: Id, x: Id)
    requires TreeInv(g, s) && Enabled(g, s, AnswerArrives(u, v)) && HopsOk(g, s, d) && x in s.rec
    ensures HopOk(g, TakeAnswer(s, u, v), d, x)
  {
    assert HopOk(g, s, d, x) && CountersOk(g, s, u) && LinkOk(g, s, u, v);
  }

  lemma EndWaitHop(g: Graph, s: Net, d: nat, u: Id, x: Id)
    requires TreeInv(g, s) && Enabled(g, s, WaitEnds(u)) && HopsOk(g, s, d) && x in s.rec
    ensures HopOk(g, EndWait(g, s, u), d, x)
  {
    assert HopOk(g, s, d, x);
    if u != g.init { BusyLink(g, s, u); }
  }

  /** The search does not go on when there is nobody left to ask: in a network of radius d it
      starts 2 * d + 1 rounds at most, the time it takes to reach everybody and to hear so. */
  lemma SearchSoonOver(g: Graph, run: seq<Net>, steps: seq<Step>, i: nat, d: nat)
    requires WellFormed(g) && IsRun(g, run, steps) && i < |run| && Radius(g, d)
    ensures g.init in run[i].rec && run[i].rec[g.init].hop <= 2 * d + 1 && run[i].rec[g.init].hop <= 8
  {
    RunKeepsInv(g, run, steps, i);
    RunKeepsHops(g, run, steps, i, d);
    assert PlaceOk(g, run[i], g.init) && HopOk(g, run[i], d, g.init);
  }

  lemma RunKeepsHops(g: Graph, run: seq<Net>, steps: seq<Step>, i: nat, d: nat)
    requires WellFormed(g) && IsRun(g, run, steps) && i < |run| && Radius(g, d)
    ensures HopsOk(g, run[i], d)
  {
    if i > 0 {
      RunKeepsInv(g, run, steps, i - 1);
      RunKeepsHops(g, run, steps, i - 1, d);
      StepKeepsHops(g, run[i - 1], d, steps[i - 1]);
    }
  }

  /** A message is only put on a link that carries none: nothing the map `wire` holds is ever
      overwritten, except a question by its answer. */
  lemma SendsFindLinkFree(g: Graph, s: Net, step: Step)
    requires Inv(g, s) && Enabled(g, s, step)
    ensures match step
      case StartRound => s.rec[g.init].wire == map[]
      case ContinueArrives(u, v) => s.rec[v].wire == map[] && s.rec[v].pred == u
      case WaitEnds(u) => u != g.init ==> u !in s.rec[s.rec[u].pred].wire
      case _ => true
  {
    match step
    case StartRound => NobodyBusy(g, s, g.init);
    case ContinueArrives(u, v) => ContinueFacts(g, s, u, v);
    case WaitEnds(u) => if u != g.init { BusyLink(g, s, u); }
    case _ =>
  }

  // ---------------------------------------------------------------- rounds end

  /** While an agent waits, a step below it in the tree is possible. */
  lemma SomethingToDo(g: Graph, s: Net, u: Id) returns (step: Step)
    requires TreeInv(g, s) && u in s.rec && s.rec[u].busy
    ensures Enabled(g, s, step) && step != StartRound
    decreases s.rec[u].hop
  {
    assert CountersOk(g, s, u) && PlaceOk(g, s, u);
    if s.rec[u].owed == {} {
      step := WaitEnds(u);
    } else {
      var v := Any(s.rec[u].owed);
      assert LinkOk(g, s, u, v);
      if v !in s.rec[u].wire {
        step := SomethingToDo(g, s, v);
      } else {
        match s.rec[u].wire[v]
        case Search => step := SearchArrives(u, v);
        case Continue => step := ContinueArrives(u, v);
        case _ => step := AnswerArrives(u, v);
      }
    }
  }

  ghost function Total(m: map<Id, nat>): nat
    decreases |m|
  {
    if m.Keys == {} then 0
    else
      var k := Any(m.Keys);
      m[k] + Total(m - {k})
  }

  lemma {:induction false} TotalWithout(m: map<Id, nat>, k: Id)
    requires k in m
    ensures Total(m) == m[k] + Total(m - {k})
    decreases |m|
  {
    var c := Any(m.Keys);
    if c != k {
      TotalWithout(m - {c}, k);
      TotalWithout(m - {k}, c);
      assert m - {c} - {k} == m - {k} - {c};
    }
  }

  lemma TotalUpdate(m: map<Id, nat>, k: Id, x: nat)
    requires k in m
    ensures Total(m[k := x]) + m[k] == Total(m) + x
  {
    TotalWithout(m, k);
    TotalWithout(m[k := x], k);
    assert m[k := x] - {k} == m - {k};
  }

  ghost function Questions(wire: map<Id, Msg>): set<Id> {
    set v | v in wire && Question(wire[v])
  }

  /** A question is worth three steps, its arrival included, and an answer one. */
  ghost function Load(wire: map<Id, Msg>): nat {
    |wire.Keys| + 2 * |Questions(wire)|
  }

  lemma LoadAnswered(wire: map<Id, Msg>, v: Id, m: Msg)
    requires v in wire && Question(wire[v]) && !Question(m)
    ensures Load(wire[v := m]) + 2 == Load(wire)
  {
    assert wire[v := m].Keys == wire.Keys;
    assert Questions(wire[v := m]) == Questions(wire) - {v};
  }

  lemma LoadTaken(wire: map<Id, Msg>, v: Id)
    requires v in wire
    ensures Load(wire - {v}) < Load(wire)
  {
    assert (wire - {v}).Keys == wire.Keys - {v};
    assert Questions(wire - {v}) == Questions(wire) - {v};
  }

  lemma LoadAdded(wire: map<Id, Msg>, v: Id, m: Msg)
    requires v !in wire && !Question(m)
    ensures Load(wire[v := m]) == Load(wire) + 1
  {
    assert wire[v := m].Keys == wire.Keys + {v};
    assert Questions(wire[v := m]) == Questions(wire);
  }

  lemma LoadBound(wire: map<Id, Msg>, ids: set<Id>)
    requires wire.Keys <= ids
    ensures Load(wire) <= 3 * |ids|
  {
    SmallerSet(wire.Keys, ids);
    SmallerSet(Questions(wire), ids);
  }

  /** What k calls of floodNextStep are worth in a network of n agents. */
  ghost function Worth(n: nat, k: nat): nat {
    if k == 0 then 0 else 3 * n + 3 + Worth(n, k - 1)
  }

  /** An upper bound on the steps of this round that an agent still accounts for. */
  ghost function Weight(n: nat, rounds: nat, a: Agent): nat {
    (if a.hop <= rounds then Worth(n, rounds - a.hop) else 0) + Load(a.wire) + if a.busy then 2 else 0
  }

  ghost function WeightOf(g: Graph, s: Net, rounds: nat, v: Id): nat {
    if v in s.rec then Weight(|g.nbrs|, rounds, s.rec[v]) else Worth(|g.nbrs|, rounds + 1)
  }

  ghost function Weights(g: Graph, s: Net, rounds: nat): map<Id, nat> {
    map v | v in g.nbrs :: WeightOf(g, s, rounds, v)
  }

  ghost function Fuel(g: Graph, s: Net): nat
    requires g.init in s.rec
  {
    Total(Weights(g, s, s.rec[g.init].hop))
  }

  /** One agent gets lighter. */
  lemma OneLighter(g: Graph, s: Net, t: Net, u: Id)
    requires g.init in s.rec && t.rec.Keys == s.rec.Keys && t.rec[g.init].hop == s.rec[g.init].hop
    requires u in s.rec && u in g.nbrs && forall x :: x in s.rec && x != u ==> t.rec[x] == s.rec[x]
    requires Weight(|g.nbrs|, s.rec[g.init].hop, t.rec[u]) < Weight(|g.nbrs|, s.rec[g.init].hop, s.rec[u])
    ensures Fuel(g, t) < Fuel(g, s)
  {
    var h := s.rec[g.init].hop;
    var before, after := Weights(g, s, h), Weights(g, t, h);
    forall x | x in after ensures after[x] == before[u := after[u]][x] {
    }
    assert after == before[u := after[u]];
    TotalUpdate(before, u, after[u]);
  }

  /** Two agents together get lighter; v may be new. */
  lemma TwoLighter(g: Graph, s: Net, t: Net, u: Id, v: Id)
    requires g.init in s.rec && t.rec.Keys == s.rec.Keys + {v} && t.rec[g.init].hop == s.rec[g.init].hop
    requires u in s.rec && u in g.nbrs && v in g.nbrs && u != v
    requires forall x :: x in s.rec && x != u && x != v ==> t.rec[x] == s.rec[x]
    requires var h := s.rec[g.init].hop;
      WeightOf(g, t, h, u) + WeightOf(g, t, h, v) < WeightOf(g, s, h, u) + WeightOf(g, s, h, v)
    ensures Fuel(g, t) < Fuel(g, s)
  {
    var h := s.rec[g.init].hop;
    var before, after := Weights(g, s, h), Weights(g, t, h);
    forall x | x in after ensures after[x] == before[u := after[u]][v := after[v]][x] {
    }
    assert after == before[u := after[u]][v := after[v]];
    TotalUpdate(before, u, after[u]);
    TotalUpdate(before[u := after[u]], v, after[v]);
  }

  lemma SearchLighter(g: Graph, s: Net, u: Id, v: Id)
    requires TreeInv(g, s) && Enabled(g, s, SearchArrives(u, v))
    ensures g.init in TakeSearch(g, s, u, v).rec && Fuel(g, TakeSearch(g, s, u, v)) < Fuel(g, s)
  {
    SearchFacts(g, s, u, v);
    TakenLighter(g, s, u, v);
  }

  lemma TakenLighter(g: Graph, s: Net, u: Id, v: Id)
    requires Enabled(g, s, SearchArrives(u, v)) && g.init in s.rec && s.rec.Keys <= g.nbrs.Keys && u != v
    requires v in s.known <==> v in s.rec
    ensures g.init in TakeSearch(g, s, u, v).rec && Fuel(g, TakeSearch(g, s, u, v)) < Fuel(g, s)
  {
    var t := TakeSearch(g, s, u, v);
    var n, h := |g.nbrs|, s.rec[g.init].hop;
    LoadAnswered(s.rec[u].wire, v, t.rec[u].wire[v]);
    assert Weight(n, h, t.rec[u]) < Weight(n, h, s.rec[u]);
    if v in s.known {
      OneLighter(g, s, t, u);
    } else {
      JoinedLighter(g, s, u, v, t);
    }
  }

  lemma JoinedLighter(g: Graph, s: Net, u: Id, v: Id, t: Net)
    requires Enabled(g, s, SearchArrives(u, v)) && g.init in s.rec && s.rec.Keys <= g.nbrs.Keys && u != v
    requires v !in s.known && v !in s.rec && t == TakeSearch(g, s, u, v)
    requires Weight(|g.nbrs|, s.rec[g.init].hop, t.rec[u]) < Weight(|g.nbrs|, s.rec[g.init].hop, s.rec[u])
    ensures g.init in t.rec && Fuel(g, t) < Fuel(g, s)
  {
    NewWeight(|g.nbrs|, s.rec[g.init].hop, t.rec[v]);
    TwoLighter(g, s, t, u, v);
  }

  lemma {:induction false} NewWeight(n: nat, rounds: nat, a: Agent)
    requires a.hop == 0 && a.wire == map[] && !a.busy
    ensures Weight(n, rounds, a) < Worth(n, rounds + 1)
  {
    assert Questions(a.wire) == {};
  }

  lemma FloodWeight(n: nat, rounds: nat, a: Agent)
    requires a.hop < rounds && !a.busy && a.wire == map[] && |a.nbs.Keys| <= n
    ensures Weight(n, rounds, Flood(a)) < Weight(n, rounds, a)
  {
    var b, k := Flood(a), rounds - a.hop;
    LoadBound(b.wire, a.nbs.Keys);
    assert rounds - b.hop == k - 1 && Worth(n, k) == 3 * n + 3 + Worth(n, k - 1);
  }

  lemma FewNeighbours(g: Graph, s: Net, v: Id)
    requires TreeInv(g, s) && v in s.rec
    ensures |s.rec[v].nbs.Keys| <= |g.nbrs|
  {
    assert CountersOk(g, s, v);
    forall x | x in s.rec[v].nbs.Keys ensures x in g.nbrs.Keys {
    }
    SmallerSet(s.rec[v].nbs.Keys, g.nbrs.Keys);
  }

  lemma ContinueLighter(g: Graph, s: Net, u: Id, v: Id)
    requires TreeInv(g, s) && Enabled(g, s, ContinueArrives(u, v))
    ensures g.init in TakeContinue(s, u, v).rec && Fuel(g, TakeContinue(s, u, v)) < Fuel(g, s)
  {
    ContinueFacts(g, s, u, v);
    FewNeighbours(g, s, v);
    ContinuedLighter(g, s, u, v);
  }

  lemma ContinuedLighter(g: Graph, s: Net, u: Id, v: Id)
    requires Enabled(g, s, ContinueArrives(u, v)) && g.init in s.rec && s.rec.Keys <= g.nbrs.Keys
    requires u != v && v != g.init && s.rec[v].pred == u && !s.rec[v].busy && s.rec[v].wire == map[]
    requires s.rec[v].hop < s.rec[g.init].hop && |s.rec[v].nbs.Keys| <= |g.nbrs|
    ensures g.init in TakeContinue(s, u, v).rec && Fuel(g, TakeContinue(s, u, v)) < Fuel(g, s)
  {
    var t := TakeContinue(s, u, v);
    ContinueShape(g, s, u, v, t);
    FloodWeight(|g.nbrs|, s.rec[g.init].hop, s.rec[v]);
    LoadAnswered(s.rec[u].wire, v, FloodedArea);
    LoadTaken(s.rec[u].wire, v);
    assert Weight(|g.nbrs|, s.rec[g.init].hop, t.rec[u]) < Weight(|g.nbrs|, s.rec[g.init].hop, s.rec[u]);
    TwoLighter(g, s, t, u, v);
  }

  /** newFlood floods at v, and takes the question or replaces it by the answer. */
  lemma ContinueShape(g: Graph, s: Net, u: Id, v: Id, t: Net)
    requires Enabled(g, s, ContinueArrives(u, v)) && u != v && s.rec[v].pred == u && t == TakeContinue(s, u, v)
    ensures t.rec.Keys == s.rec.Keys && t.rec[v] == Flood(s.rec[v])
    ensures t.rec[u] == s.rec[u].(wire := s.rec[u].wire - {v})
         || t.rec[u] == s.rec[u].(wire := s.rec[u].wire[v := FloodedArea])
    ensures forall x :: x in s.rec && x != u && x != v ==> t.rec[x] == s.rec[x]
  {
    assert (s.rec[u].wire - {v})[v := FloodedArea] == s.rec[u].wire[v := FloodedArea];
  }

  lemma AnswerLighter(g: Graph, s: Net, u: Id, v: Id)
    requires TreeInv(g, s) && Enabled(g, s, AnswerArrives(u, v))
    ensures g.init in TakeAnswer(s, u, v).rec && Fuel(g, TakeAnswer(s, u, v)) < Fuel(g, s)
  {
    LoadTaken(s.rec[u].wire, v);
    OneLighter(g, s, TakeAnswer(s, u, v), u);
  }

  lemma EndWaitLighter(g: Graph, s: Net, u: Id)
    requires TreeInv(g, s) && Enabled(g, s, WaitEnds(u))
    ensures g.init in EndWait(g, s, u).rec && Fuel(g, EndWait(g, s, u)) < Fuel(g, s)
  {
    if u == g.init {
      OneLighter(g, s, EndWait(g, s, u), u);
    } else {
      BusyLink(g, s, u);
      ReportLighter(g, s, u);
    }
  }

  lemma ReportLighter(g: Graph, s: Net, u: Id)
    requires Enabled(g, s, WaitEnds(u)) && g.init in s.rec && s.rec.Keys <= g.nbrs.Keys
    requires u != g.init && s.rec[u].pred != u && u !in s.rec[s.rec[u].pred].wire
    ensures g.init in EndWait(g, s, u).rec && Fuel(g, EndWait(g, s, u)) < Fuel(g, s)
  {
    LoadAdded(s.rec[s.rec[u].pred].wire, u, Report(s.rec[u]));
    TwoLighter(g, s, EndWait(g, s, u), s.rec[u].pred, u);
  }

  /** Every step of a round uses up some of a bounded store. */
  lemma RoundStepsEnd(g: Graph, s: Net, step: Step)
    requires Inv(g, s) && Enabled(g, s, step) && step != StartRound
    ensures g.init in Apply(g, s, step).rec && Fuel(g, Apply(g, s, step)) < Fuel(g, s)
  {
    match step
    case SearchArrives(u, v) => SearchLighter(g, s, u, v);
    case ContinueArrives(u, v) => ContinueLighter(g, s, u, v);
    case AnswerArrives(u, v) => AnswerLighter(g, s, u, v);
    case WaitEnds(u) => EndWaitLighter(g, s, u);
  }

  /** A part of a run without a new round is no longer than the store it begins with. */
  lemma RoundsAreFinite(g: Graph, run: seq<Net>, steps: seq<Step>, i: nat, j: nat)
    requires WellFormed(g) && IsRun(g, run, steps) && i <= j < |run|
    requires forall k :: i <= k < j ==> steps[k] != StartRound
    ensures g.init in run[i].rec && g.init in run[j].rec && Fuel(g, run[j]) + (j - i) <= Fuel(g, run[i])
  {
    if i == j {
      HasInitiator(g, run, steps, i);
    } else {
      RoundsAreFinite(g, run, steps, i, j - 1);
      StepUsesFuel(g, run, steps, j - 1);
    }
  }

  lemma HasInitiator(g: Graph, run: seq<Net>, steps: seq<Step>, i: nat)
    requires WellFormed(g) && IsRun(g, run, steps) && i < |run|
    ensures g.init in run[i].rec
  {
    RunKeepsInv(g, run, steps, i);
  }

  lemma StepUsesFuel(g: Graph, run: seq<Net>, steps: seq<Step>, j: nat)
    requires WellFormed(g) && IsRun(g, run, steps) && j < |steps| && steps[j] != StartRound
    ensures g.init in run[j].rec && g.init in run[j + 1].rec && Fuel(g, run[j + 1]) < Fuel(g, run[j])
  {
    RunKeepsInv(g, run, steps, j);
    RunKeepsInv(g, run, steps, j + 1);
    RoundStepsEnd(g, run[j], steps[j]);
  }
}