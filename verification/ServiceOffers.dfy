/** What the service tables of all agents mean at every moment of every run: exactly what the
    servers have subscribed or added and neither removed nor left. */
module ServiceOffers {
  import opened Common
  import opened ServiceTree

  /** Server number `child` at an agent offers a service. */
  datatype Offer = Offer(agent: Id, child: int, service: Service)

  /** The offers after one more step: agents that start, bind or disconnect offer nothing. */
  function NextOffers(h: set<Offer>, net: Net, step: Step): set<Offer> {
    match step
    case ServerSubscribes(a, svcs) =>
      if a in net then h + set s | s in svcs :: Offer(a, net[a].childIDCounter, s) else h
    case ServerAdds(a, c, svcs) => h + set s | s in svcs :: Offer(a, c, s)
    case ServerRemoves(a, c, svc) => h - {Offer(a, c, svc)}
    case ServerLeaves(a, c, profile) => h - set s | s in profile :: Offer(a, c, s)
    case Start(_) => h
    case Disconnects(_, _) => h
    case Binds(_, _, _) => h
  }

  function OffersAt(run: seq<Net>, steps: seq<Step>, i: nat): set<Offer>
    requires |run| == |steps| + 1 && i < |run|
  {
    if i == 0 then {} else NextOffers(OffersAt(run, steps, i - 1), run[i - 1], steps[i - 1])
  }

  /** The agent lists the service under a number that no agent has. */
  ghost predicate ServerHas(net: Net, x: Id, d: int, s: Service) {
    x in net && Entry(s, d) in net[x].SrvT && !Owned(net, x, d)
  }

  ghost predicate Matches(net: Net, h: set<Offer>) {
    forall x, d, s {:trigger Offer(x, d, s) in h} {:trigger ServerHas(net, x, d, s)} ::
      Offer(x, d, s) in h <==> ServerHas(net, x, d, s)
  }

  lemma ListedNumber(net: Net, bad: set<Id>, x: Id, d: int, s: Service)
    requires Wf(net, bad) && x in net && Entry(s, d) in net[x].SrvT
    ensures 0 <= d < net[x].childIDCounter
  {
    assert NumbersOk(net, x);
  }

  /** A change at number c of a, beside which only entries of agents change. */
  lemma ServersElsewhere(net: Net, bad: set<Id>, t: Net, a: Id, c: int, x: Id, d: int, s: Service)
    requires Wf(net, bad) && Wf(t, {}) && OnlyOwned(net, t, a, c) && NumbersKept(net, t)
    requires !(x == a && d == c) || c < 0
    ensures ServerHas(t, x, d, s) <==> ServerHas(net, x, d, s)
  {
    if x in net && (Entry(s, d) in net[x].SrvT || Entry(s, d) in t[x].SrvT) {
      if Entry(s, d) in net[x].SrvT { ListedNumber(net, bad, x, d, s); } else { ListedNumber(t, {}, x, d, s); }
      if Owned(net, x, d) {
        var y :| y in net && net[y].parent == To(x) && net[y].childID == d;
        assert NumberKept(net, t, y);
        assert t[y].parent == To(x) && t[y].childID == d;
      } else if Owned(t, x, d) {
        NewNumber(net, t, x, d);
        if Entry(s, d) in net[x].SrvT { ListedNumber(net, bad, x, d, s); }
      } else {
        assert SameAt(net, t, x, d);
      }
    }
  }

  /** A number that an agent gets is above those listed so far. */
  lemma NewNumber(net: Net, t: Net, x: Id, d: int)
    requires NumbersKept(net, t) && x in net && Owned(t, x, d) && !Owned(net, x, d)
    ensures d >= net[x].childIDCounter
  {
    var y :| y in t && t[y].parent == To(x) && t[y].childID == d;
    assert NumberKept(net, t, y);
  }

  lemma SameButTablesKeepsNumbers(net: Net, t: Net)
    requires SameButTables(net, t)
    ensures NumbersKept(net, t)
  {
    forall y | y in net ensures NumberKept(net, t, y) {
      assert t[y] == net[y].(SrvT := t[y].SrvT);
    }
  }

  /** The number of a server stays that of a server. */
  lemma StillFree(net: Net, t: Net, a: Id, c: int)
    requires a in net && FreeSlot(net, a, c, {}) && NumbersKept(net, t)
    ensures !Owned(t, a, c)
  {
    forall y | y in t && t[y].parent == To(a) ensures t[y].childID != c {
      assert NumberKept(net, t, y);
    }
  }

  // ---------------------------------------------------------------- one step

  lemma AddedOffers(net: Net, a: Id, up: seq<Id>, c: int, svcs: set<Service>, t: Net, x: Id, d: int, s: Service)
    requires Valid(net) && Path(net, a, up) && (forall y :: y in up ==> y in net) && FreeSlot(net, a, c, {})
    requires t == AddServices(net, a, up, c, svcs)
    ensures ServerHas(t, x, d, s) <==> ServerHas(net, x, d, s) || (x == a && d == c && s in svcs)
  {
    AddKeeps(net, a, up, c, svcs, {}, t);
    AddTouches(net, a, up, c, svcs, t);
    if x == a && d == c {
      StillFree(net, t, a, c);
    } else {
      ServersElsewhere(net, {}, t, a, c, x, d, s);
    }
  }

  lemma SubscribedOffers(net: Net, a: Id, up: seq<Id>, svcs: set<Service>, t: Net, x: Id, d: int, s: Service)
    requires Valid(net) && Path(net, a, up) && (forall y :: y in up ==> y in net) && t == Subscribe(net, a, up, svcs)
    ensures ServerHas(t, x, d, s) <==>
      ServerHas(net, x, d, s) || (x == a && d == net[a].childIDCounter && s in svcs)
  {
    var id := net[a].childIDCounter;
    var b := net[a := net[a].(childIDCounter := id + 1)];
    Bumped(net, a, {}, b);
    SamePath(net, b, a, up);
    BumpedValid(net, b, a);
    AddedOffers(b, a, up, id, svcs, t, x, d, s);
    BumpedServers(net, b, a, x, d, s);
  }

  lemma BumpedValid(net: Net, b: Net, a: Id)
    requires Valid(net) && a in net && b == net[a := net[a].(childIDCounter := net[a].childIDCounter + 1)] && Wf(b, {})
    ensures Valid(b)
  {
    forall x | x in b ensures HasPath(b, x) {
      GrownPath(net, b, x, Up(net, x));
    }
  }

  lemma BumpedServers(net: Net, b: Net, a: Id, x: Id, d: int, s: Service)
    requires a in net && b == net[a := net[a].(childIDCounter := net[a].childIDCounter + 1)]
    ensures ServerHas(b, x, d, s) <==> ServerHas(net, x, d, s)
  {
    OwnedStays(net, b, x, d);
    OwnedStays(b, net, x, d);
  }

  lemma RemovedOffers(net: Net, a: Id, c: int, gone: set<Service>, t: Net, x: Id, d: int, s: Service)
    requires Valid(net) && a in net && FreeSlot(net, a, c, {}) && Wf(t, {})
    requires SameButTables(net, t) && OnlyOwned(net, t, a, c) && t[a].SrvT == net[a].SrvT - EntriesOf(gone, c)
    ensures ServerHas(t, x, d, s) <==> ServerHas(net, x, d, s) && !(x == a && d == c && s in gone)
  {
    SameButTablesKeepsNumbers(net, t);
    if x == a && d == c {
      StillFree(net, t, a, c);
      SameOwners(net, t, a, c);
    } else {
      ServersElsewhere(net, {}, t, a, c, x, d, s);
    }
  }

  /** Leaving a parent concerns entries of agents only. */
  lemma DisconnectedOffers(net: Net, a: Id, up: seq<Id>, profiles: seq<Service>, t: Net, x: Id, d: int, s: Service)
    requires Valid(net) && Path(net, a, up) && (forall y :: y in up ==> y in net)
    requires AsSet(profiles) == Services(net[a]) && t == Disconnect(net, a, up, profiles)
    ensures ServerHas(t, x, d, s) <==> ServerHas(net, x, d, s)
  {
    if up != [] {
      DisconnectKeeps(net, a, up, profiles, t);
      LeftParent(net, a, up[0], t, x, d, s);
    }
  }

  lemma LeftParent(net: Net, a: Id, p: Id, t: Net, x: Id, d: int, s: Service)
    requires Wf(net, {}) && Wf(t, {}) && a in net && net[a].parent == To(p) && p in net
    requires OnlyOwned(net, t, p, net[a].childID) && t[a] == net[a].(parent := Nil, childID := -1)
    requires forall y :: y in net && y != a ==> t[y] == net[y].(SrvT := t[y].SrvT)
    requires forall r :: Entry(r, net[a].childID) !in t[p].SrvT
    ensures ServerHas(t, x, d, s) <==> ServerHas(net, x, d, s)
  {
    if x == p && d == net[a].childID {
      assert Owned(net, p, d);
    } else if x in net && (Entry(s, d) in net[x].SrvT || Entry(s, d) in t[x].SrvT) {
      if Entry(s, d) in net[x].SrvT { ListedNumber(net, {}, x, d, s); } else { ListedNumber(t, {}, x, d, s); }
      OwnedStays(net, t, x, d);
      OwnedStays(t, net, x, d);
      if !Owned(t, x, d) { assert SameAt(net, t, x, d); }
    }
  }

  lemma BoundOffers(net: Net, a: Id, up: seq<Id>, profiles: seq<Service>, p: Id, above: seq<Id>, t: Net, x: Id, d: int,
                    s: Service)
    requires Valid(net) && Path(net, a, up) && (forall y :: y in up ==> y in net)
    requires Path(net, p, above) && (forall y :: y in above ==> y in net) && p != a && a !in above
    requires AsSet(profiles) == Services(net[a]) && t == BindParent(net, a, up, profiles, p, above)
    ensures ServerHas(t, x, d, s) <==> ServerHas(net, x, d, s)
  {
    var off := Disconnect(net, a, up, profiles);
    DisconnectKeeps(net, a, up, profiles, off);
    DisconnectedOffers(net, a, up, profiles, off, x, d, s);
    var e := off[a := off[a].(parent := To(p))];
    Attached(off, a, p, e);
    AttachedServers(off, e, a, p, x, d, s);
    if profiles != [] {
      PathAvoids(net, e, a, p, above);
      BindKeeps(net, a, up, profiles, p, above, t);
      RegisteredOffers(e, a, p, above, AsSet(profiles), t, x, d, s);
    }
  }

  lemma AttachedServers(off: Net, e: Net, a: Id, p: Id, x: Id, d: int, s: Service)
    requires Wf(off, {}) && a in off && p in off && off[a].parent == Nil && off[a].childID == -1
    requires e == off[a := off[a].(parent := To(p))]
    ensures ServerHas(e, x, d, s) <==> ServerHas(off, x, d, s)
  {
    if x in off && Entry(s, d) in off[x].SrvT {
      ListedNumber(off, {}, x, d, s);
      OwnedStays(off, e, x, d);
      OwnedStays(e, off, x, d);
    }
  }

  /** What an agent that subscribes lists at its new parent is its own. */
  lemma RegisteredOffers(e: Net, a: Id, p: Id, above: seq<Id>, svcs: set<Service>, t: Net, x: Id, d: int, s: Service)
    requires Wf(e, {a}) && Wf(t, {}) && a in e && p in e && a != p && a !in above
    requires e[a].parent == To(p) && e[a].childID == -1
    requires Path(e, p, above) && (forall y :: y in above ==> y in e)
    requires t == Subscribe(e, p, above, svcs)[a := Subscribe(e, p, above, svcs)[a].(childID := e[p].childIDCounter)]
    ensures ServerHas(t, x, d, s) <==> ServerHas(e, x, d, s)
  {
    var b := e[p := e[p].(childIDCounter := e[p].childIDCounter + 1)];
    SamePath(e, b, p, above);
    AddTouches(b, p, above, e[p].childIDCounter, svcs, Subscribe(e, p, above, svcs));
    NumberGiven(e, b, Subscribe(e, p, above, svcs), a, p, e[p].childIDCounter, t);
    ServersElsewhere(e, {a}, t, p, -1, x, d, s);
  }

  /** Nothing but entries of agents changes. */
  lemma NumberGiven(e: Net, b: Net, v: Net, a: Id, p: Id, id: nat, t: Net)
    requires a in e && p in e && a != p && e[a].parent == To(p) && e[a].childID == -1 && id == e[p].childIDCounter
    requires b == e[p := e[p].(childIDCounter := id + 1)] && v.Keys == e.Keys && v[a] == b[a]
    requires OnlyOwned(b, v, p, id) && NumbersKept(b, v) && t == v[a := v[a].(childID := id)]
    ensures OnlyOwned(e, t, p, -1) && NumbersKept(e, t)
  {
    forall x, d | x in e && d >= 0 && !(x == p && d == -1) && !Owned(t, x, d) ensures SameAt(e, t, x, d) {
      assert t[a].parent == To(p) && t[a].childID == id;
      OwnedStays(v, t, x, d);
      assert SameAt(b, v, x, d);
    }
    forall y | y in e ensures NumberKept(e, t, y) {
      assert NumberKept(b, v, y);
    }
  }

  // ---------------------------------------------------------------- every run

  lemma StepMatches(net: Net, h: set<Offer>, step: Step)
    requires Valid(net) && Enabled(net, step) && Matches(net, h)
    ensures Matches(Apply(net, step), NextOffers(h, net, step))
  {
    var t, g := Apply(net, step), NextOffers(h, net, step);
    StepKeepsValid(net, step);
    forall x, d, s ensures Offer(x, d, s) in g <==> ServerHas(t, x, d, s) {
      assert Offer(x, d, s) in h <==> ServerHas(net, x, d, s);
      OneOffer(net, h, step, x, d, s);
    }
  }

  lemma OneOffer(net: Net, h: set<Offer>, step: Step, x: Id, d: int, s: Service)
    requires Valid(net) && Enabled(net, step) && Valid(Apply(net, step))
    requires Offer(x, d, s) in h <==> ServerHas(net, x, d, s)
    ensures Offer(x, d, s) in NextOffers(h, net, step) <==> ServerHas(Apply(net, step), x, d, s)
  {
    var t := Apply(net, step);
    match step
    case Start(a) => StartedOffers(net, a, t, x, d, s);
    case ServerSubscribes(a, svcs) => SubscribedOffers(net, a, Up(net, a), svcs, t, x, d, s);
    case ServerAdds(a, c, svcs) => AddedOffers(net, a, Up(net, a), c, svcs, t, x, d, s);
    case ServerRemoves(a, c, svc) =>
      RemoveKeeps(net, a, Up(net, a), c, svc, {}, t);
      RemoveTouches(net, a, Up(net, a), c, svc, t);
      assert EntriesOf({svc}, c) == {Entry(svc, c)};
      RemovedOffers(net, a, c, {svc}, t, x, d, s);
    case ServerLeaves(a, c, profile) =>
      UnsubscribeKeeps(net, a, Up(net, a), c, profile, {}, t);
      UnsubscribeTouches(net, a, Up(net, a), c, profile, t);
      RemovedOffers(net, a, c, AsSet(profile), t, x, d, s);
    case Disconnects(a, profile) => DisconnectedOffers(net, a, Up(net, a), profile, t, x, d, s);
    case Binds(a, profile, p) =>
      if p != a { BoundOffers(net, a, Up(net, a), profile, p, Up(net, p), t, x, d, s); }
  }

  lemma StartedOffers(net: Net, a: Id, t: Net, x: Id, d: int, s: Service)
    requires a !in net && t == net[a := NEW_AGENT]
    ensures ServerHas(t, x, d, s) <==> ServerHas(net, x, d, s)
  {
    OwnedStays(net, t, x, d);
    OwnedStays(t, net, x, d);
  }

  /** At every moment of every run the entries that belong to no agent are exactly the offers
      that servers have made and not withdrawn. */
  lemma {:induction false} RunMatches(run: seq<Net>, steps: seq<Step>, i: nat)
    requires IsRun(run, steps) && i < |run|
    ensures Matches(run[i], OffersAt(run, steps, i))
  {
    if i > 0 {
      RunMatches(run, steps, i - 1);
      RunKeepsValid(run, steps, i - 1);
      StepMatches(run[i - 1], OffersAt(run, steps, i - 1), steps[i - 1]);
    }
  }

  /** An agent lists a service iff some server at it or below it offers the service. */
  lemma ListsExactly(run: seq<Net>, steps: seq<Step>, i: nat, a: Id, svc: Service)
    requires IsRun(run, steps) && i < |run| && a in run[i]
    ensures svc in Services(run[i][a]) <==> SomebodyOffers(run[i], OffersAt(run, steps, i), a, svc)
  {
    var net, h := run[i], OffersAt(run, steps, i);
    RunKeepsValid(run, steps, i);
    RunMatches(run, steps, i);
    if svc in Services(net[a]) {
      var y, c, path := ListedIsServed(net, a, Up(net, a), svc);
      NotOwned(net, y, c);
      assert ServerHas(net, y, c, svc) && Offer(y, c, svc) in h;
      assert Path(net, y, path);
    } else if SomebodyOffers(net, h, a, svc) {
      var y, c, path :| Offer(y, c, svc) in h && Path(net, y, path) && (y == a || a in path);
      assert ServerHas(net, y, c, svc) && svc in Services(net[y]);
      if y != a {
        var k :| 0 <= k < |path| && path[k] == a;
        VisibleUpTheTree(net, y, path, svc, k);
      }
    }
  }

  ghost predicate SomebodyOffers(net: Net, h: set<Offer>, a: Id, svc: Service) {
    exists y, c, path :: Offer(y, c, svc) in h && Path(net, y, path) && (y == a || a in path)
  }

  lemma NotOwned(net: Net, y: Id, c: int)
    requires y in net && FreeSlot(net, y, c, {})
    ensures !Owned(net, y, c)
  {
  }
}
