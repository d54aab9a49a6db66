/** The service tables of a tree of agents: src/agent/AgentImpl.cc and LocalAgentImpl.cc. Every
    call runs to its end before the next one; a call that an agent makes to its parent is part
    of it. Nobody fails. */
module ServiceTree {
  import opened Common

  type Id = int
  type Service = string

  /** The agent offers the service through its child number `child`. */
  datatype Entry = Entry(service: Service, child: int)

  datatype Parent = Nil | To(id: Id)

  datatype Agent = Agent(parent: Parent, childID: int, childIDCounter: nat, SrvT: set<Entry>)

  type Net = map<Id, Agent>

  const NEW_AGENT := Agent(Nil, -1, 0, {})

  function Services(a: Agent): (svcs: set<Service>)
    ensures forall s :: s in svcs <==> exists c :: Entry(s, c) in a.SrvT
  {
    var svcs := set e | e in a.SrvT :: e.service;
    assert forall s, c :: Entry(s, c) in a.SrvT ==> Entry(s, c).service in svcs;
    assert forall e :: e in a.SrvT ==> e == Entry(e.service, e.child);
    svcs
  }

  function EntriesOf(svcs: set<Service>, c: int): (es: set<Entry>)
    ensures forall e :: e in es <==> e.child == c && e.service in svcs
  {
    set s | s in svcs :: Entry(s, c)
  }

  // ---------------------------------------------------------------- calls and their effect

  /** AgentImpl::addServices, on the agent's own table. */
  function Enter(net: Net, a: Id, c: int, svcs: set<Service>): Net
    requires a in net
  {
    net[a := net[a].(SrvT := net[a].SrvT + EntriesOf(svcs, c))]
  }

  /** AgentImpl::childUnsubscribe and childRemoveService, on the agent's own table. */
  function Leave(net: Net, a: Id, c: int, svcs: set<Service>): Net
    requires a in net
  {
    net[a := net[a].(SrvT := net[a].SrvT - EntriesOf(svcs, c))]
  }

  /** addServices at agent a, whose ancestors are `up`, nearest first. */
  function AddServices(net: Net, a: Id, up: seq<Id>, c: int, svcs: set<Service>): (t: Net)
    requires a in net && forall x :: x in up ==> x in net
    ensures t.Keys == net.Keys && forall x :: x in net ==> t[x].parent == net[x].parent
    decreases |up|
  {
    if net[a].childID == -1 then
      var t := Enter(net, a, c, svcs);
      if up == [] then t
      else
        var p := up[0];
        assert p in up;
        var id := t[p].childIDCounter;
        var u := t[p := t[p].(childIDCounter := id + 1)];
        var v := AddServices(u, p, up[1..], id, Services(t[a]));
        v[a := v[a].(childID := id)]
    else
      Enter(if up == [] then net else AddServices(net, up[0], up[1..], net[a].childID, svcs), a, c, svcs)
  }

  /** childRemoveService; a service that is not there is an error and changes nothing. */
  function RemoveService(net: Net, a: Id, up: seq<Id>, c: int, svc: Service): (t: Net)
    requires a in net && forall x :: x in up ==> x in net
    ensures t.Keys == net.Keys && forall x :: x in net ==> t[x].parent == net[x].parent
    decreases |up|
  {
    if Entry(svc, c) !in net[a].SrvT then net
    else
      var t := Leave(net, a, c, {svc});
      if up != [] && svc !in Services(t[a]) then RemoveService(t, up[0], up[1..], t[a].childID, svc) else t
  }

  /** The loop of LocalAgentImpl::childUnsubscribe over its first n services. */
  function RemoveEach(net: Net, a: Id, up: seq<Id>, svcs: seq<Service>, n: nat): (t: Net)
    requires a in net && up != [] && n <= |svcs| && forall x :: x in up ==> x in net
    ensures t.Keys == net.Keys && forall x :: x in net ==> t[x].parent == net[x].parent
  {
    if n == 0 then net
    else
      var t := RemoveEach(net, a, up, svcs, n - 1);
      if svcs[n - 1] in Services(t[a]) then t else RemoveService(t, up[0], up[1..], t[a].childID, svcs[n - 1])
  }

  function AsSet(svcs: seq<Service>): set<Service> {
    set s | s in svcs
  }

  function ChildUnsubscribe(net: Net, a: Id, up: seq<Id>, c: int, svcs: seq<Service>): (t: Net)
    requires a in net && forall x :: x in up ==> x in net
    ensures t.Keys == net.Keys && forall x :: x in net ==> t[x].parent == net[x].parent
  {
    var t := Leave(net, a, c, AsSet(svcs));
    if up == [] then t else RemoveEach(t, a, up, svcs, |svcs|)
  }

  /** agentSubscribe and serverSubscribe: the new child gets the next number. */
  function Subscribe(net: Net, a: Id, up: seq<Id>, svcs: set<Service>): (t: Net)
    requires a in net && forall x :: x in up ==> x in net
    ensures t.Keys == net.Keys && forall x :: x in net ==> t[x].parent == net[x].parent
  {
    var id := net[a].childIDCounter;
    AddServices(net[a := net[a].(childIDCounter := id + 1)], a, up, id, svcs)
  }

  /** disconnect; `profiles` is the table of services in the order getProfiles lists it. */
  function Disconnect(net: Net, a: Id, up: seq<Id>, profiles: seq<Service>): (t: Net)
    requires a in net && forall x :: x in up ==> x in net
    ensures t.Keys == net.Keys
  {
    if up == [] then net
    else
      var t := if net[a].childID == -1 then net else ChildUnsubscribe(net, up[0], up[1..], net[a].childID, profiles);
      t[a := t[a].(parent := Nil, childID := -1)]
  }

  /** bindParent to the agent p, whose ancestors are `above`. */
  function BindParent(net: Net, a: Id, up: seq<Id>, profiles: seq<Service>, p: Id, above: seq<Id>): (t: Net)
    requires a in net && p in net && (forall x :: x in up ==> x in net) && (forall x :: x in above ==> x in net)
    ensures t.Keys == net.Keys
  {
    if p == a then net
    else
      var off := Disconnect(net, a, up, profiles);
      var t := off[a := off[a].(parent := To(p))];
      if profiles == [] then t
      else
        var u := Subscribe(t, p, above, AsSet(profiles));
        u[a := u[a].(childID := t[p].childIDCounter)]
  }

  // ---------------------------------------------------------------- invariant

  /** `up` are the ancestors of a, nearest first. */
  predicate Path(net: Net, a: Id, up: seq<Id>)
    decreases |up|
  {
    a in net &&
    match net[a].parent
    case Nil => up == []
    case To(p) => up != [] && up[0] == p && Path(net, p, up[1..])
  }

  /** The parent of x lists under x's number exactly the services of x. */
  ghost predicate EdgeOk(net: Net, x: Id)
    requires x in net && (net[x].parent.To? ==> net[x].parent.id in net)
  {
    net[x].parent.To? ==>
      if net[x].childID == -1 then net[x].SrvT == {}
      else forall s :: Entry(s, net[x].childID) in net[net[x].parent.id].SrvT <==> s in Services(net[x])
  }

  /** Numbers are in range and entries are about children that have been numbered. */
  ghost predicate NumbersOk(net: Net, x: Id)
    requires x in net
  {
    && (net[x].parent.Nil? ==> net[x].childID == -1)
    && (net[x].parent.To? ==> net[x].parent.id in net && -1 <= net[x].childID < net[net[x].parent.id].childIDCounter)
    && (forall e :: e in net[x].SrvT ==> 0 <= e.child < net[x].childIDCounter)
  }

  predicate Siblings(net: Net, x: Id, y: Id)
    requires x in net && y in net
  {
    net[x].parent.To? && net[x].parent == net[y].parent
  }

  /** Consistent, except for the edges above the agents of `bad`. */
  ghost predicate Wf(net: Net, bad: set<Id>) {
    && (forall x {:trigger NumbersOk(net, x)} :: x in net ==> NumbersOk(net, x))
    && (forall x {:trigger EdgeOk(net, x)} :: x in net && x !in bad ==> NumbersOk(net, x) && EdgeOk(net, x))
    && NumbersDiffer(net)
  }

  ghost predicate NumbersDiffer(net: Net) {
    forall x, y {:trigger Siblings(net, x, y)} ::
      x in net && y in net && x != y && Siblings(net, x, y) && net[x].childID != -1 ==>
        net[x].childID != net[y].childID
  }

  /** Changing one table keeps the rest consistent when the entries of the good children stay. */
  lemma TableChange(net: Net, a: Id, table: set<Entry>, bad: set<Id>, e: Net)
    requires Wf(net, bad) && a in net && e == net[a := net[a].(SrvT := table)]
    requires forall x :: x in table ==> 0 <= x.child < net[a].childIDCounter
    requires forall y, s :: y in net && y !in bad && net[y].parent == To(a) ==>
      (Entry(s, net[y].childID) in table <==> Entry(s, net[y].childID) in net[a].SrvT)
    ensures Wf(e, bad + {a})
  {
    forall x | x in e ensures NumbersOk(e, x) {
      assert NumbersOk(net, x);
    }
    forall x | x in e && x !in bad + {a} ensures EdgeOk(e, x) {
      assert NumbersOk(net, x) && EdgeOk(net, x);
    }
    assert NumbersDiffer(e) by {
      assert forall x, y :: x in net && y in net ==> Siblings(e, x, y) == Siblings(net, x, y);
    }
  }

  // ---------------------------------------------------------------- paths

  lemma {:induction false} PathUnique(net: Net, a: Id, up: seq<Id>, other: seq<Id>)
    requires Path(net, a, up) && Path(net, a, other)
    ensures up == other
    decreases |up|
  {
    if up != [] {
      PathUnique(net, up[0], up[1..], other[1..]);
      assert up == [up[0]] + up[1..] && other == [other[0]] + other[1..];
    }
  }

  lemma {:induction false} PathAt(net: Net, a: Id, up: seq<Id>, i: nat)
    requires Path(net, a, up) && i < |up|
    ensures Path(net, up[i], up[i + 1..])
    decreases i
  {
    if i > 0 {
      PathAt(net, up[0], up[1..], i - 1);
      assert up[1..][i..] == up[i + 1..];
    }
  }

  lemma {:induction false} NotOwnAncestor(net: Net, a: Id, up: seq<Id>)
    requires Path(net, a, up)
    ensures a !in up && forall x :: x in up ==> x in net
  {
    forall i | 0 <= i < |up| ensures up[i] != a && up[i] in net {
      PathAt(net, a, up, i);
      if up[i] == a { PathUnique(net, a, up, up[i + 1..]); }
    }
  }

  lemma {:induction false} ChildNotAbove(net: Net, a: Id, up: seq<Id>, y: Id)
    requires Path(net, a, up) && y in net && net[y].parent == To(a)
    ensures y != a && y !in up
  {
    assert ([a] + up)[1..] == up;
    NotOwnAncestor(net, y, [a] + up);
  }

  lemma {:induction false} SamePath(net: Net, t: Net, a: Id, up: seq<Id>)
    requires Path(net, a, up) && t.Keys == net.Keys
    requires forall x :: x in net ==> t[x].parent == net[x].parent
    ensures Path(t, a, up)
    decreases |up|
  {
    if up != [] { SamePath(net, t, up[0], up[1..]); }
  }

  // ---------------------------------------------------------------- adding

  /** What a call at a changes: nothing outside a and its ancestors, at a only the entries of
      one child, and no number of a child of a. */
  ghost predicate Framed(net: Net, t: Net, a: Id, up: seq<Id>)
    requires a in net
  {
    && t.Keys == net.Keys && (forall x {:trigger t[x]} :: x in net ==> t[x].parent == net[x].parent)
    && (forall x {:trigger t[x]} :: x in net && x != a && x !in up ==> t[x] == net[x])
    && t[a].childIDCounter == net[a].childIDCounter
  }

  /** No agent with a consistent edge is child number c of a. */
  ghost predicate FreeSlot(net: Net, a: Id, c: int, bad: set<Id>)
    requires a in net
  {
    0 <= c < net[a].childIDCounter &&
    forall y :: y in net && y !in bad && net[y].parent == To(a) ==> net[y].childID != c
  }

  lemma {:induction false} AddKeeps(net: Net, a: Id, up: seq<Id>, c: int, svcs: set<Service>, bad: set<Id>, t: Net)
    requires Wf(net, bad) && Path(net, a, up) && a !in bad && (forall x :: x in up ==> x in net && x !in bad)
    requires FreeSlot(net, a, c, bad) && t == AddServices(net, a, up, c, svcs)
    ensures Wf(t, bad) && Framed(net, t, a, up) && t[a].SrvT == net[a].SrvT + EntriesOf(svcs, c)
    decreases |up|, 2
  {
    NotOwnAncestor(net, a, up);
    assert NumbersOk(net, a) && EdgeOk(net, a);
    if up == [] {
      LocalAdd(net, a, c, svcs, bad, t);
    } else if net[a].childID == -1 {
      FirstAdd(net, a, up, c, svcs, bad, t);
    } else {
      LaterAdd(net, a, up, c, svcs, bad, t);
    }
  }

  /** Adding to the own table, when the parent knows it already. */
  lemma LocalAdd(v: Net, a: Id, c: int, svcs: set<Service>, bad: set<Id>, t: Net)
    requires Wf(v, bad + {a}) && a in v && a !in bad && FreeSlot(v, a, c, bad) && t == Enter(v, a, c, svcs)
    requires v[a].parent.To? ==> v[a].parent.id in v && v[a].parent.id != a && v[a].childID != -1
    requires v[a].parent.To? ==>
      forall s :: Entry(s, v[a].childID) in v[v[a].parent.id].SrvT <==> s in Services(v[a]) || s in svcs
    ensures Wf(t, bad)
  {
    assert NumbersOk(v, a);
    TableChange(v, a, t[a].SrvT, bad + {a}, t);
    assert bad + {a} + {a} == bad + {a};
    assert NumbersOk(t, a);
    Mended(t, a, bad);
  }

  /** A registered agent tells its parent first. */
  lemma {:induction false} LaterAdd(net: Net, a: Id, up: seq<Id>, c: int, svcs: set<Service>, bad: set<Id>, t: Net)
    requires Wf(net, bad) && Path(net, a, up) && a !in bad && a !in up
    requires (forall x :: x in up ==> x in net && x !in bad)
    requires FreeSlot(net, a, c, bad) && t == AddServices(net, a, up, c, svcs) && up != [] && net[a].childID != -1
    requires EdgeOk(net, a) && NumbersOk(net, a)
    ensures Wf(t, bad) && Framed(net, t, a, up) && t[a].SrvT == net[a].SrvT + EntriesOf(svcs, c)
    decreases |up|, 1
  {
    var p, id := up[0], net[a].childID;
    var v := AddServices(net, p, up[1..], id, svcs);
    SiblingsElsewhere(net, a, bad);
    WfMore(net, bad, a);
    AddKeeps(net, p, up[1..], id, svcs, bad + {a}, v);
    forall y | y in net && net[y].parent == To(a) ensures y !in up && y != a {
      ChildNotAbove(net, a, up, y);
    }
    LocalAdd(v, a, c, svcs, bad, t);
  }

  lemma WfMore(net: Net, bad: set<Id>, a: Id)
    requires Wf(net, bad)
    ensures Wf(net, bad + {a})
  {
  }

  /** The number of an agent is free for its other entries. */
  lemma SiblingsElsewhere(net: Net, a: Id, bad: set<Id>)
    requires Wf(net, bad) && a in net && NumbersOk(net, a) && net[a].parent.To? && net[a].childID != -1
    ensures FreeSlot(net, net[a].parent.id, net[a].childID, bad + {a})
  {
    forall y | y in net && y !in bad + {a} && net[y].parent == net[a].parent ensures net[y].childID != net[a].childID {
      assert Siblings(net, a, y);
    }
  }

  /** An agent without a number enters its table and then subscribes with all of it. */
  lemma {:induction false} FirstAdd(net: Net, a: Id, up: seq<Id>, c: int, svcs: set<Service>, bad: set<Id>, t: Net)
    requires Wf(net, bad) && Path(net, a, up) && a !in bad && a !in up
    requires (forall x :: x in up ==> x in net && x !in bad)
    requires FreeSlot(net, a, c, bad) && t == AddServices(net, a, up, c, svcs) && up != [] && net[a].childID == -1
    ensures Wf(t, bad) && Framed(net, t, a, up) && t[a].SrvT == net[a].SrvT + EntriesOf(svcs, c)
    decreases |up|, 1
  {
    var p, e := up[0], Enter(net, a, c, svcs);
    var id := e[p].childIDCounter;
    EnteredWf(net, a, c, svcs, bad, e);
    SamePath(net, e, p, up[1..]);
    Registers(e, a, up, bad, t);
  }

  /** An agent whose parent lists nothing about it subscribes. */
  lemma {:induction false} Registers(e: Net, a: Id, up: seq<Id>, bad: set<Id>, t: Net)
    requires Wf(e, bad + {a}) && a in e && a !in bad && up != [] && a !in up
    requires (forall x :: x in up ==> x in e && x !in bad)
    requires e[a].parent == To(up[0]) && e[a].childID == -1 && Path(e, up[0], up[1..])
    requires var u := Subscribe(e, up[0], up[1..], Services(e[a]));
      t == u[a := u[a].(childID := e[up[0]].childIDCounter)]
    ensures Wf(t, bad) && t.Keys == e.Keys && (forall x :: x in e ==> t[x].parent == e[x].parent)
    ensures t[a] == e[a].(childID := t[a].childID) && forall x :: x in e && x != a && x !in up ==> t[x] == e[x]
    decreases |up|, 0
  {
    assert up[0] in up && up[0] != a && forall x :: x in up[1..] ==> x in up;
    var v := Subscribe(e, up[0], up[1..], Services(e[a]));
    SubscribeKeeps(e, up[0], up[1..], Services(e[a]), bad + {a}, v);
    ListedAnew(e, a, up, v, bad);
    Numbered(v, a, e[up[0]].childIDCounter, bad, t);
  }

  /** A new child number is listed with its services, and nothing else changes at a. */
  lemma {:induction false} SubscribeKeeps(net: Net, a: Id, up: seq<Id>, svcs: set<Service>, bad: set<Id>, t: Net)
    requires Wf(net, bad) && Path(net, a, up) && a !in bad && (forall x :: x in up ==> x in net && x !in bad)
    requires t == Subscribe(net, a, up, svcs)
    ensures Wf(t, bad) && t.Keys == net.Keys && (forall x :: x in net ==> t[x].parent == net[x].parent)
    ensures forall x :: x in net && x != a && x !in up ==> t[x] == net[x]
    ensures t[a].childIDCounter == net[a].childIDCounter + 1
    ensures t[a].SrvT == net[a].SrvT + EntriesOf(svcs, net[a].childIDCounter)
    decreases |up|, 3
  {
    var id := net[a].childIDCounter;
    var b := net[a := net[a].(childIDCounter := id + 1)];
    Bumped(net, a, bad, b);
    SamePath(net, b, a, up);
    AddKeeps(b, a, up, id, svcs, bad, t);
  }

  lemma {:induction false} ListedAnew(e: Net, a: Id, up: seq<Id>, v: Net, bad: set<Id>)
    requires Wf(e, bad + {a}) && a in e && up != [] && up[0] in e && a !in up && Path(e, up[0], up[1..])
    requires v.Keys == e.Keys && (forall x :: x in e ==> v[x].parent == e[x].parent)
    requires forall x :: x in e && x != up[0] && x !in up[1..] ==> v[x] == e[x]
    requires v[up[0]].SrvT == e[up[0]].SrvT + EntriesOf(Services(e[a]), e[up[0]].childIDCounter)
    ensures var p, id := up[0], e[up[0]].childIDCounter;
      && v[a] == e[a] && (forall y :: y in v && v[y].parent == To(p) ==> v[y].childID < id)
      && (forall s :: Entry(s, id) in v[p].SrvT <==> s in Services(v[a]))
  {
    var p, id := up[0], e[up[0]].childIDCounter;
    forall y | y in v && v[y].parent == To(p) ensures v[y].childID < id {
      ChildNotAbove(e, p, up[1..], y);
      assert NumbersOk(e, y);
    }
    assert NumbersOk(e, p);
  }

  lemma EnteredWf(net: Net, a: Id, c: int, svcs: set<Service>, bad: set<Id>, e: Net)
    requires Wf(net, bad) && a in net && FreeSlot(net, a, c, bad) && e == Enter(net, a, c, svcs)
    ensures Wf(e, bad + {a})
  {
    assert NumbersOk(net, a);
    TableChange(net, a, e[a].SrvT, bad, e);
  }

  /** A new number is given out. */
  lemma Bumped(net: Net, p: Id, bad: set<Id>, u: Net)
    requires Wf(net, bad) && p in net && u == net[p := net[p].(childIDCounter := net[p].childIDCounter + 1)]
    ensures Wf(u, bad) && FreeSlot(u, p, net[p].childIDCounter, bad)
  {
    forall x | x in u ensures NumbersOk(u, x) && (x !in bad ==> EdgeOk(u, x)) {
      assert NumbersOk(net, x);
      if x !in bad { assert EdgeOk(net, x); }
    }
    assert forall x, y :: x in u && y in u ==> Siblings(u, x, y) == Siblings(net, x, y);
    forall y | y in u && u[y].parent == To(p) ensures u[y].childID < net[p].childIDCounter {
      assert NumbersOk(net, y);
    }
  }

  /** An agent gets the number under which its parent has just listed its services. */
  lemma Numbered(v: Net, a: Id, id: int, bad: set<Id>, t: Net)
    requires Wf(v, bad + {a}) && a in v && v[a].childID == -1 && v[a].parent.To? && t == v[a := v[a].(childID := id)]
    requires var p := v[a].parent.id;
      && p in v && p != a && 0 <= id < v[p].childIDCounter
      && (forall y :: y in v && v[y].parent == To(p) ==> v[y].childID < id)
      && (forall s :: Entry(s, id) in v[p].SrvT <==> s in Services(v[a]))
    ensures Wf(t, bad)
  {
    forall x | x in t ensures NumbersOk(t, x) && (x !in bad ==> EdgeOk(t, x)) {
      assert NumbersOk(v, x);
      if x !in bad && x != a { assert EdgeOk(v, x); }
    }
    assert forall x, y :: x in t && y in t && Siblings(t, x, y) ==> Siblings(v, x, y);
  }

  // ---------------------------------------------------------------- removing

  lemma Mended(net: Net, a: Id, bad: set<Id>)
    requires Wf(net, bad + {a}) && a in net && NumbersOk(net, a) && EdgeOk(net, a)
    ensures Wf(net, bad)
  {
    forall x | x in net ensures NumbersOk(net, x) && (x !in bad ==> EdgeOk(net, x)) {
      assert NumbersOk(net, x);
      if x != a && x !in bad { assert EdgeOk(net, x); }
    }
  }

  lemma LeftWf(net: Net, a: Id, c: int, svcs: set<Service>, bad: set<Id>, e: Net)
    requires Wf(net, bad) && a in net && FreeSlot(net, a, c, bad) && e == Leave(net, a, c, svcs)
    ensures Wf(e, bad + {a})
  {
    assert NumbersOk(net, a);
    TableChange(net, a, e[a].SrvT, bad, e);
  }

  lemma {:induction false} RemoveKeeps(net: Net, a: Id, up: seq<Id>, c: int, svc: Service, bad: set<Id>, t: Net)
    requires Wf(net, bad) && Path(net, a, up) && a !in bad && (forall x :: x in up ==> x in net && x !in bad)
    requires FreeSlot(net, a, c, bad) && t == RemoveService(net, a, up, c, svc)
    ensures Wf(t, bad) && Framed(net, t, a, up) && t[a].SrvT == net[a].SrvT - {Entry(svc, c)}
    decreases |up|
  {
    if Entry(svc, c) in net[a].SrvT {
      NotOwnAncestor(net, a, up);
      assert NumbersOk(net, a) && EdgeOk(net, a);
      var e := Leave(net, a, c, {svc});
      LeftWf(net, a, c, {svc}, bad, e);
      assert e[a].SrvT == net[a].SrvT - {Entry(svc, c)};
      if up != [] && svc !in Services(e[a]) {
        var p, id := up[0], net[a].childID;
        SiblingsElsewhere(net, a, bad);
        SamePath(net, e, p, up[1..]);
        RemoveKeeps(e, p, up[1..], id, svc, bad + {a}, t);
      }
      LostOne(net, a, c, svc, t);
      Mended(t, a, bad);
    }
  }

  lemma LostOne(net: Net, a: Id, c: int, svc: Service, t: Net)
    requires a in net && a in t && NumbersOk(net, a) && EdgeOk(net, a) && NumbersOk(t, a)
    requires Entry(svc, c) in net[a].SrvT
    requires t[a] == net[a].(SrvT := net[a].SrvT - {Entry(svc, c)})
    requires net[a].parent.To? ==> net[a].parent.id in t && net[a].parent.id != a
    requires net[a].parent.To? ==>
      t[net[a].parent.id].SrvT ==
        net[net[a].parent.id].SrvT - if svc in Services(t[a]) then {} else {Entry(svc, net[a].childID)}
    ensures EdgeOk(t, a)
  {
    assert Entry(svc, c) in net[a].SrvT && svc in Services(net[a]);
    forall s ensures s in Services(t[a]) <==> s in Services(net[a]) && (s == svc ==> s in Services(t[a])) {
      if s in Services(net[a]) && s != svc {
        var d :| Entry(s, d) in net[a].SrvT;
        assert Entry(s, d) in t[a].SrvT;
      }
    }
  }

  /** A parent that knows nothing of the caller ignores it. */
  lemma {:induction false} RemoveEachNothing(net: Net, a: Id, up: seq<Id>, svcs: seq<Service>, n: nat)
    requires a in net && up != [] && n <= |svcs| && (forall x :: x in up ==> x in net)
    requires net[a].childID == -1 && NumbersOk(net, up[0])
    ensures RemoveEach(net, a, up, svcs, n) == net
  {
    if n > 0 {
      RemoveEachNothing(net, a, up, svcs, n - 1);
      assert Entry(svcs[n - 1], -1) !in net[up[0]].SrvT;
    }
  }

  /** The entries the parent loses when a no longer has those of the first n services. */
  ghost function Dropped(svcs: seq<Service>, n: nat, kept: set<Service>, id: int): (es: set<Entry>)
    requires n <= |svcs|
    ensures forall e :: e in es <==> e.child == id && e.service !in kept && e.service in svcs[..n]
  {
    set s | s in svcs[..n] && s !in kept :: Entry(s, id)
  }

  lemma {:induction false} RemoveEachKeeps(net: Net, a: Id, up: seq<Id>, svcs: seq<Service>, n: nat, bad: set<Id>,
                                           t: Net)
    requires Wf(net, bad + {a}) && Path(net, a, up) && up != [] && a !in up
    requires (forall x :: x in up ==> x in net && x !in bad)
    requires n <= |svcs| && net[a].childID != -1 && t == RemoveEach(net, a, up, svcs, n)
    ensures Wf(t, bad + {a}) && Framed(net, t, up[0], up[1..])
    ensures t[up[0]].SrvT == net[up[0]].SrvT - Dropped(svcs, n, Services(net[a]), net[a].childID)
  {
    if n > 0 {
      assert up[0] in up && forall x :: x in up[1..] ==> x in up;
      var s := RemoveEach(net, a, up, svcs, n - 1);
      RemoveEachKeeps(net, a, up, svcs, n - 1, bad, s);
      DropOne(svcs, n, Services(net[a]), net[a].childID);
      if svcs[n - 1] !in Services(s[a]) {
        RemoveNext(net, s, a, up[0], up[1..], svcs[n - 1], bad, t);
        DropTwice(net[up[0]].SrvT, Dropped(svcs, n - 1, Services(net[a]), net[a].childID),
                  Entry(svcs[n - 1], net[a].childID));
      }
    }
  }

  lemma DropTwice(table: set<Entry>, es: set<Entry>, e: Entry)
    ensures table - es - {e} == table - (es + {e})
  {
  }

  lemma {:induction false} RemoveNext(net: Net, s: Net, a: Id, p: Id, above: seq<Id>, svc: Service, bad: set<Id>,
                                      t: Net)
    requires a in net && net[a].parent == To(p) && net[a].childID != -1 && p != a && a !in above
    requires Path(net, p, above) && p !in bad && (forall x :: x in above ==> x in net && x !in bad)
    requires Wf(s, bad + {a}) && Framed(net, s, p, above) && t == RemoveService(s, p, above, net[a].childID, svc)
    ensures Wf(t, bad + {a}) && Framed(net, t, p, above) && t[p].SrvT == s[p].SrvT - {Entry(svc, net[a].childID)}
  {
    assert NumbersOk(s, a);
    SiblingsElsewhere(s, a, bad + {a});
    assert bad + {a} + {a} == bad + {a};
    SamePath(net, s, p, above);
    RemoveKeeps(s, p, above, net[a].childID, svc, bad + {a}, t);
  }

  lemma DropOne(svcs: seq<Service>, n: nat, kept: set<Service>, id: int)
    requires 0 < n <= |svcs|
    ensures Dropped(svcs, n, kept, id) ==
      Dropped(svcs, n - 1, kept, id) + if svcs[n - 1] in kept then {} else {Entry(svcs[n - 1], id)}
  {
    assert svcs[..n] == svcs[..n - 1] + [svcs[n - 1]];
  }

  lemma {:induction false} UnsubscribeKeeps(net: Net, a: Id, up: seq<Id>, c: int, svcs: seq<Service>, bad: set<Id>,
                                            t: Net)
    requires Wf(net, bad) && Path(net, a, up) && a !in bad && (forall x :: x in up ==> x in net && x !in bad)
    requires FreeSlot(net, a, c, bad) && t == ChildUnsubscribe(net, a, up, c, svcs)
    ensures Wf(t, bad) && Framed(net, t, a, up) && t[a].SrvT == net[a].SrvT - EntriesOf(AsSet(svcs), c)
  {
    NotOwnAncestor(net, a, up);
    assert NumbersOk(net, a) && EdgeOk(net, a);
    var e := Leave(net, a, c, AsSet(svcs));
    LeftWf(net, a, c, AsSet(svcs), bad, e);
    if up == [] {
      Mended(t, a, bad);
    } else if net[a].childID == -1 {
      assert e[a] == net[a] && e == net;
      assert NumbersOk(net, up[0]);
      RemoveEachNothing(net, a, up, svcs, |svcs|);
    } else {
      SamePath(net, e, a, up);
      RemoveEachKeeps(e, a, up, svcs, |svcs|, bad, t);
      assert svcs[..|svcs|] == svcs;
      LostMany(net, a, c, svcs, t);
      Mended(t, a, bad);
    }
  }

  lemma LostMany(net: Net, a: Id, c: int, svcs: seq<Service>, t: Net)
    requires a in net && a in t && NumbersOk(net, a) && EdgeOk(net, a) && NumbersOk(t, a) && net[a].childID != -1
    requires t[a] == net[a].(SrvT := net[a].SrvT - EntriesOf(AsSet(svcs), c))
    requires net[a].parent.To? && net[a].parent.id in t && net[a].parent.id != a
    requires var p := net[a].parent.id;
      t[p].SrvT == net[p].SrvT - Dropped(svcs, |svcs|, Services(t[a]), net[a].childID)
    ensures EdgeOk(t, a)
  {
    assert svcs[..|svcs|] == svcs;
    forall s ensures s in Services(t[a]) <==> s in Services(net[a]) && (s in svcs ==> s in Services(t[a])) {
      if s in Services(net[a]) && s !in svcs {
        var d :| Entry(s, d) in net[a].SrvT;
        assert Entry(s, d) in t[a].SrvT;
      }
    }
  }

  // ---------------------------------------------------------------- entries of agents and of servers

  /** Number d at x is that of an agent. */
  ghost predicate Owned(net: Net, x: Id, d: int) {
    exists y :: y in net && net[y].parent == To(x) && net[y].childID == d
  }

  ghost predicate SameAt(net: Net, t: Net, x: Id, d: int)
    requires x in net && x in t
  {
    forall e :: (e in t[x].SrvT || e in net[x].SrvT) && e.child == d ==> (e in t[x].SrvT <==> e in net[x].SrvT)
  }

  /** Apart from number c at a, only what is listed under the numbers of agents has changed. */
  ghost predicate OnlyOwned(net: Net, t: Net, a: Id, c: int) {
    && t.Keys == net.Keys
    && forall x, d {:trigger SameAt(net, t, x, d)} {:trigger Owned(t, x, d)} ::
      x in net && d >= 0 && !(x == a && d == c) && !Owned(t, x, d) ==> SameAt(net, t, x, d)
  }

  /** A number is kept, or is a new one. */
  predicate NumberKept(net: Net, t: Net, y: Id)
    requires y in net && y in t
  {
    && t[y].parent == net[y].parent && t[y].childIDCounter >= net[y].childIDCounter
    && (t[y].childID == net[y].childID
        || (net[y].childID == -1 && net[y].parent.To? && net[y].parent.id in net
            && t[y].childID >= net[net[y].parent.id].childIDCounter))
  }

  ghost predicate NumbersKept(net: Net, t: Net) {
    t.Keys == net.Keys && forall y {:trigger NumberKept(net, t, y)} :: y in net ==> NumberKept(net, t, y)
  }

  /** Adding at a changes entries of servers at a only. */
  lemma {:induction false} AddTouches(net: Net, a: Id, up: seq<Id>, c: int, svcs: set<Service>, t: Net)
    requires Path(net, a, up) && (forall x :: x in up ==> x in net) && t == AddServices(net, a, up, c, svcs)
    ensures OnlyOwned(net, t, a, c) && NumbersKept(net, t)
    ensures forall x :: x in net && x != a && x !in up ==> t[x] == net[x]
    decreases |up|, 1
  {
    NotOwnAncestor(net, a, up);
    if up == [] {
      assert t == Enter(net, a, c, svcs);
    } else if net[a].childID == -1 {
      var e, p := Enter(net, a, c, svcs), up[0];
      assert p in up;
      var u := e[p := e[p].(childIDCounter := e[p].childIDCounter + 1)];
      FirstAddTouches(net, u, a, up, p, up[1..], c, svcs, e[p].childIDCounter, Services(e[a]), t);
    } else {
      assert up[0] in up && forall x :: x in up[1..] ==> x in up;
      var v := AddServices(net, up[0], up[1..], net[a].childID, svcs);
      AddTouches(net, up[0], up[1..], net[a].childID, svcs, v);
      LaterTouches(net, v, a, up[0], c, svcs, t);
    }
  }

  lemma {:induction false} FirstAddTouches(net: Net, u: Net, a: Id, up: seq<Id>, p: Id, above: seq<Id>, c: int,
                                           svcs: set<Service>, id: nat, own: set<Service>, t: Net)
    requires Path(net, a, up) && (forall x :: x in up ==> x in net) && up == [p] + above && net[a].childID == -1
    requires a !in up
    requires u == net[a := net[a].(SrvT := net[a].SrvT + EntriesOf(svcs, c))]
                     [p := net[p].(childIDCounter := net[p].childIDCounter + 1)] && id == net[p].childIDCounter
    requires (forall x :: x in above ==> x in u)
    requires t == AddServices(u, p, above, id, own)[a := AddServices(u, p, above, id, own)[a].(childID := id)]
    ensures OnlyOwned(net, t, a, c) && NumbersKept(net, t)
    ensures forall x :: x in net && x != a && x !in up ==> t[x] == net[x]
    decreases |up|, 0
  {
    assert up[0] == p && up[1..] == above && p in up && forall x :: x in above ==> x in up;
    SamePath(net, u, p, above);
    var v := AddServices(u, p, above, id, own);
    AddTouches(u, p, above, id, own, v);
    FirstTouches(net, u, v, a, p, c, svcs, id, t);
  }

  lemma OwnedStays(v: Net, t: Net, x: Id, d: int)
    requires forall y :: y in v && v[y].parent == To(x) && v[y].childID == d ==>
      y in t && t[y].parent == To(x) && t[y].childID == d
    ensures Owned(v, x, d) ==> Owned(t, x, d)
  {
  }

  lemma FirstTouches(net: Net, u: Net, v: Net, a: Id, p: Id, c: int, svcs: set<Service>, id: nat, t: Net)
    requires a in net && p in net && p != a && net[a].parent == To(p) && net[a].childID == -1
    requires u == net[a := net[a].(SrvT := net[a].SrvT + EntriesOf(svcs, c))]
                     [p := net[p].(childIDCounter := net[p].childIDCounter + 1)] && id == net[p].childIDCounter
    requires OnlyOwned(u, v, p, id) && NumbersKept(u, v) && v[a] == u[a] && t == v[a := v[a].(childID := id)]
    ensures OnlyOwned(net, t, a, c) && NumbersKept(net, t)
  {
    forall x, d | x in net && d >= 0 && !(x == a && d == c) && !Owned(t, x, d) ensures SameAt(net, t, x, d) {
      assert t[a].parent == To(p) && t[a].childID == id;
      OwnedStays(v, t, x, d);
      assert SameAt(u, v, x, d);
    }
    forall y | y in net ensures NumberKept(net, t, y) {
      assert NumberKept(u, v, y);
    }
  }

  lemma LaterTouches(net: Net, v: Net, a: Id, p: Id, c: int, svcs: set<Service>, t: Net)
    requires a in net && p in net && p != a && net[a].parent == To(p) && net[a].childID != -1
    requires OnlyOwned(net, v, p, net[a].childID) && NumbersKept(net, v) && v[a] == net[a] && t == Enter(v, a, c, svcs)
    ensures OnlyOwned(net, t, a, c) && NumbersKept(net, t)
  {
    forall x, d | x in net && d >= 0 && !(x == a && d == c) && !Owned(t, x, d) ensures SameAt(net, t, x, d) {
      assert t[a].parent == To(p) && t[a].childID == net[a].childID;
      OwnedStays(v, t, x, d);
      assert SameAt(net, v, x, d);
    }
    forall y | y in net ensures NumberKept(net, t, y) {
      assert NumberKept(net, v, y);
    }
  }

  /** Only tables differ. */
  predicate SameButTables(net: Net, t: Net) {
    t.Keys == net.Keys && forall y {:trigger t[y]} :: y in net ==> t[y] == net[y].(SrvT := t[y].SrvT)
  }

  lemma SameOwners(net: Net, t: Net, x: Id, d: int)
    requires SameButTables(net, t)
    ensures Owned(t, x, d) <==> Owned(net, x, d)
  {
    if Owned(net, x, d) {
      var y :| y in net && net[y].parent == To(x) && net[y].childID == d;
      assert t[y].parent == To(x) && t[y].childID == d;
    }
  }

  /** Two changes after each other; the second one is about the number of an agent. */
  lemma TouchTwice(net: Net, s: Net, t: Net, a: Id, c: int, p: Id, id: int)
    requires SameButTables(net, s) && SameButTables(s, t)
    requires OnlyOwned(net, s, a, c) && OnlyOwned(s, t, p, id) && (id >= 0 ==> Owned(t, p, id))
    ensures SameButTables(net, t) && OnlyOwned(net, t, a, c)
  {
    forall x, d | x in net && d >= 0 && !(x == a && d == c) && !Owned(t, x, d) ensures SameAt(net, t, x, d) {
      SameOwners(s, t, x, d);
      assert SameAt(net, s, x, d) && SameAt(s, t, x, d);
    }
  }

  lemma LeaveTouches(net: Net, a: Id, c: int, svcs: set<Service>, t: Net)
    requires a in net && t == Leave(net, a, c, svcs)
    ensures SameButTables(net, t) && OnlyOwned(net, t, a, c)
  {
  }

  lemma {:induction false} RemoveTouches(net: Net, a: Id, up: seq<Id>, c: int, svc: Service, t: Net)
    requires Path(net, a, up) && (forall x :: x in up ==> x in net) && t == RemoveService(net, a, up, c, svc)
    ensures SameButTables(net, t) && OnlyOwned(net, t, a, c)
    decreases |up|
  {
    if Entry(svc, c) in net[a].SrvT {
      var e := Leave(net, a, c, {svc});
      LeaveTouches(net, a, c, {svc}, e);
      if up != [] && svc !in Services(e[a]) {
        assert forall x :: x in up[1..] ==> x in up;
        SamePath(net, e, up[0], up[1..]);
        RemoveTouches(e, up[0], up[1..], e[a].childID, svc, t);
        assert t[a].parent == To(up[0]) && t[a].childID == e[a].childID;
        TouchTwice(net, e, t, a, c, up[0], e[a].childID);
      }
    }
  }

  lemma {:induction false} RemoveEachTouches(net: Net, a: Id, up: seq<Id>, svcs: seq<Service>, n: nat, t: Net)
    requires Path(net, a, up) && up != [] && (forall x :: x in up ==> x in net)
    requires n <= |svcs| && t == RemoveEach(net, a, up, svcs, n)
    ensures SameButTables(net, t) && OnlyOwned(net, t, a, -1)
  {
    if n > 0 {
      var s := RemoveEach(net, a, up, svcs, n - 1);
      RemoveEachTouches(net, a, up, svcs, n - 1, s);
      if svcs[n - 1] !in Services(s[a]) {
        assert up[0] in up && forall x :: x in up[1..] ==> x in up;
        SamePath(net, s, up[0], up[1..]);
        RemoveTouches(s, up[0], up[1..], s[a].childID, svcs[n - 1], t);
        assert t[a].parent == To(up[0]) && t[a].childID == s[a].childID;
        TouchTwice(net, s, t, a, -1, up[0], s[a].childID);
      }
    }
  }

  lemma UnsubscribeTouches(net: Net, a: Id, up: seq<Id>, c: int, svcs: seq<Service>, t: Net)
    requires Path(net, a, up) && (forall x :: x in up ==> x in net) && t == ChildUnsubscribe(net, a, up, c, svcs)
    ensures SameButTables(net, t) && OnlyOwned(net, t, a, c)
  {
    var e := Leave(net, a, c, AsSet(svcs));
    LeaveTouches(net, a, c, AsSet(svcs), e);
    if up != [] {
      SamePath(net, e, a, up);
      RemoveEachTouches(e, a, up, svcs, |svcs|, t);
      TouchTwice(net, e, t, a, c, a, -1);
    }
  }

  // ---------------------------------------------------------------- moving

  /** After disconnecting, the former parent lists nothing under the old number. */
  lemma {:induction false} DisconnectKeeps(net: Net, a: Id, up: seq<Id>, profiles: seq<Service>, t: Net)
    requires Wf(net, {}) && Path(net, a, up) && AsSet(profiles) == Services(net[a])
    requires forall x :: x in up ==> x in net
    requires t == Disconnect(net, a, up, profiles)
    ensures Wf(t, {}) && t[a] == net[a].(parent := Nil, childID := -1)
    ensures forall x :: x in net && x != a ==> t[x] == net[x].(SrvT := t[x].SrvT)
    ensures OnlyOwned(net, t, if up == [] then a else up[0], net[a].childID)
    ensures up != [] ==> forall s :: Entry(s, net[a].childID) !in t[up[0]].SrvT
  {
    NotOwnAncestor(net, a, up);
    assert NumbersOk(net, a) && EdgeOk(net, a);
    if up != [] {
      var p, id := up[0], net[a].childID;
      assert NumbersOk(net, p);
      var u := if id == -1 then net else ChildUnsubscribe(net, p, up[1..], id, profiles);
      if id != -1 {
        SiblingsElsewhere(net, a, {});
        UnsubscribeKeeps(net, p, up[1..], id, profiles, {} + {a}, u);
        UnsubscribeTouches(net, p, up[1..], id, profiles, u);
      }
      Detached(u, a, t);
      DetachedTouches(net, u, a, p, id, t);
    }
  }

  lemma DetachedTouches(net: Net, u: Net, a: Id, p: Id, id: int, t: Net)
    requires a in net && p in net && p != a && net[a].parent == To(p) && net[a].childID == id
    requires SameButTables(net, u) && OnlyOwned(net, u, p, id) && t == u[a := u[a].(parent := Nil, childID := -1)]
    ensures OnlyOwned(net, t, p, id)
  {
    forall x, d | x in net && d >= 0 && !(x == p && d == id) && !Owned(t, x, d) ensures SameAt(net, t, x, d) {
      OwnedStays(u, t, x, d);
      assert SameAt(net, u, x, d);
    }
  }

  lemma Detached(u: Net, a: Id, t: Net)
    requires Wf(u, {a}) && a in u && t == u[a := u[a].(parent := Nil, childID := -1)]
    ensures Wf(t, {})
  {
    forall x | x in t ensures NumbersOk(t, x) && EdgeOk(t, x) {
      assert NumbersOk(u, x);
      if x != a { assert EdgeOk(u, x); }
    }
    assert forall x, y :: x in t && y in t && Siblings(t, x, y) ==> Siblings(u, x, y);
  }

  lemma {:induction false} PathAvoids(net: Net, t: Net, a: Id, p: Id, above: seq<Id>)
    requires Path(net, p, above) && p != a && a !in above && t.Keys == net.Keys
    requires forall x :: x in net && x != a ==> t[x].parent == net[x].parent
    ensures Path(t, p, above)
    decreases |above|
  {
    if above != [] {
      assert above[0] in above && forall x :: x in above[1..] ==> x in above;
      PathAvoids(net, t, a, above[0], above[1..]);
    }
  }

  lemma Attached(off: Net, a: Id, p: Id, t: Net)
    requires Wf(off, {}) && a in off && p in off && off[a].parent == Nil && off[a].childID == -1
    requires t == off[a := off[a].(parent := To(p))]
    ensures Wf(t, {a}) && (off[a].SrvT == {} ==> Wf(t, {}))
  {
    forall x | x in t ensures NumbersOk(t, x) && (x != a ==> EdgeOk(t, x)) {
      assert NumbersOk(off, x) && EdgeOk(off, x);
    }
    assert forall x, y :: x in t && y in t && Siblings(t, x, y) && t[x].childID != -1 && t[y].childID != -1 ==>
      Siblings(off, x, y);
  }

  /** Subscribing elsewhere, or again below the former parent, does not bring the old number
      back. */
  lemma OldNumberGone(off: Net, e: Net, a: Id, q: Id, d: nat, p: Id, above: seq<Id>, svcs: set<Service>, v: Net)
    requires a in off && q in off && p in off && off[a].childID == -1 && p != a && q != a
    requires !Owned(off, q, d) && d < off[q].childIDCounter && forall s :: Entry(s, d) !in off[q].SrvT
    requires e == off[a := off[a].(parent := To(p))]
    requires Path(e, p, above) && (forall x :: x in above ==> x in e) && v == Subscribe(e, p, above, svcs)
    ensures forall s :: Entry(s, d) !in v[q].SrvT
  {
    var id := e[p].childIDCounter;
    var b := e[p := e[p].(childIDCounter := id + 1)];
    SamePath(e, b, p, above);
    AddTouches(b, p, above, id, svcs, v);
    StillUnused(off, b, v, a, q, p, id, d);
  }

  /** After disconnecting no agent has the old number at the former parent. */
  lemma NumberUnused(net: Net, off: Net, a: Id, p: Id, d: int)
    requires Wf(net, {}) && a in net && net[a].parent == To(p) && net[a].childID == d != -1
    requires off.Keys == net.Keys && off[a].parent == Nil
    requires forall x :: x in net && x != a ==> off[x].parent == net[x].parent && off[x].childID == net[x].childID
    ensures !Owned(off, p, d)
  {
    forall y | y in off && off[y].parent == To(p) ensures off[y].childID != d {
      assert Siblings(net, a, y);
    }
  }

  lemma StillUnused(off: Net, b: Net, v: Net, a: Id, q: Id, p: Id, id: nat, d: nat)
    requires a in off && q in off && p in off && !Owned(off, q, d) && id == off[p].childIDCounter
    requires d < off[q].childIDCounter && off[a].childID == -1 && a != p
    requires b == off[a := off[a].(parent := To(p))][p := off[p].(childIDCounter := id + 1)]
    requires OnlyOwned(b, v, p, id) && NumbersKept(b, v) && q != a
    requires forall s :: Entry(s, d) !in off[q].SrvT
    ensures forall s :: Entry(s, d) !in v[q].SrvT
  {
    forall y | y in v && v[y].parent == To(q) ensures v[y].childID != d {
      assert NumberKept(b, v, y);
    }
    assert SameAt(b, v, q, d);
  }

  lemma {:induction false} BindKeeps(net: Net, a: Id, up: seq<Id>, profiles: seq<Service>, p: Id, above: seq<Id>,
                                     t: Net)
    requires Wf(net, {}) && Path(net, a, up) && AsSet(profiles) == Services(net[a])
    requires (forall x :: x in up ==> x in net)
    requires Path(net, p, above) && (forall x :: x in above ==> x in net) && p != a && a !in above
    requires t == BindParent(net, a, up, profiles, p, above)
    ensures Wf(t, {}) && t[a].parent == To(p) && Path(t, a, [p] + above)
    ensures forall x :: x in net && x != a ==> t[x].parent == net[x].parent
    ensures up != [] ==> forall s :: Entry(s, net[a].childID) !in t[up[0]].SrvT
  {
    var off := Disconnect(net, a, up, profiles);
    DisconnectKeeps(net, a, up, profiles, off);
    var e := off[a := off[a].(parent := To(p))];
    Attached(off, a, p, e);
    PathAvoids(net, e, a, p, above);
    var path := [p] + above;
    assert path[0] == p && path[1..] == above;
    if profiles == [] {
      assert off[a].SrvT == {} by {
        assert forall x :: x in off[a].SrvT ==> Entry(x.service, x.child) == x && x.service in AsSet(profiles);
      }
    } else {
      assert {} + {a} == {a};
      Registers(e, a, path, {}, t);
      PathAvoids(net, t, a, p, above);
    }
    NotOwnAncestor(net, a, up);
    if up != [] && net[a].childID == -1 {
      NoNumber(t, up[0]);
    } else if up != [] && profiles != [] {
      assert NumbersOk(net, a) && up[0] in up;
      NumberUnused(net, off, a, up[0], net[a].childID);
      OldNumberGone(off, e, a, up[0], net[a].childID, p, above, AsSet(profiles),
                    Subscribe(e, p, above, AsSet(profiles)));
    }
  }

  lemma NoNumber(t: Net, x: Id)
    requires Wf(t, {}) && x in t
    ensures forall s :: Entry(s, -1) !in t[x].SrvT
  {
    assert NumbersOk(t, x);
  }

  // ---------------------------------------------------------------- every run

  ghost predicate HasPath(net: Net, a: Id) {
    exists up :: Path(net, a, up)
  }

  ghost function Up(net: Net, a: Id): (up: seq<Id>)
    requires HasPath(net, a)
    ensures Path(net, a, up) && a !in up && forall x :: x in up ==> x in net
  {
    var up :| Path(net, a, up);
    NotOwnAncestor(net, a, up);
    up
  }

  ghost predicate Valid(net: Net) {
    Wf(net, {}) && forall a :: a in net ==> HasPath(net, a)
  }

  /** A new agent, what a server may ask of its agent, and what a local agent may do. Child
      number c of a server is one that no agent has. */
  datatype Step =
    | Start(a: Id)
    | ServerSubscribes(a: Id, svcs: set<Service>)
    | ServerAdds(a: Id, c: int, svcs: set<Service>)
    | ServerRemoves(a: Id, c: int, svc: Service)
    | ServerLeaves(a: Id, c: int, profile: seq<Service>)
    | Disconnects(a: Id, profile: seq<Service>)
    | Binds(a: Id, profile: seq<Service>, p: Id)

  /** An agent is never bound below itself: such calls would go round for ever. */
  ghost predicate Enabled(net: Net, step: Step) {
    match step
    case Start(a) => a !in net
    case ServerSubscribes(a, svcs) => HasPath(net, a)
    case ServerAdds(a, c, svcs) => HasPath(net, a) && a in net && FreeSlot(net, a, c, {})
    case ServerRemoves(a, c, svc) => HasPath(net, a) && a in net && FreeSlot(net, a, c, {})
    case ServerLeaves(a, c, profile) => HasPath(net, a) && a in net && FreeSlot(net, a, c, {})
    case Disconnects(a, profile) => HasPath(net, a) && a in net && AsSet(profile) == Services(net[a])
    case Binds(a, profile, p) =>
      && HasPath(net, a) && a in net && AsSet(profile) == Services(net[a])
      && HasPath(net, p) && a !in Up(net, p)
  }

  ghost function Apply(net: Net, step: Step): Net
    requires Enabled(net, step)
  {
    match step
    case Start(a) => net[a := NEW_AGENT]
    case ServerSubscribes(a, svcs) => Subscribe(net, a, Up(net, a), svcs)
    case ServerAdds(a, c, svcs) => AddServices(net, a, Up(net, a), c, svcs)
    case ServerRemoves(a, c, svc) => RemoveService(net, a, Up(net, a), c, svc)
    case ServerLeaves(a, c, profile) => ChildUnsubscribe(net, a, Up(net, a), c, profile)
    case Disconnects(a, profile) => Disconnect(net, a, Up(net, a), profile)
    case Binds(a, profile, p) => BindParent(net, a, Up(net, a), profile, p, Up(net, p))
  }

  lemma {:induction false} PathAfter(net: Net, t: Net, a: Id, x: Id, up: seq<Id>)
    requires Path(net, x, up) && HasPath(t, a) && t.Keys == net.Keys
    requires forall y :: y in net && y != a ==> t[y].parent == net[y].parent
    ensures HasPath(t, x)
    decreases |up|
  {
    if x != a && up == [] {
      assert Path(t, x, []);
    } else if x != a {
      PathAfter(net, t, a, up[0], up[1..]);
      var q :| Path(t, up[0], q);
      var path := [up[0]] + q;
      assert path[1..] == q;
      assert Path(t, x, path);
    }
  }

  lemma PathsAfter(net: Net, t: Net, a: Id)
    requires (forall x :: x in net ==> HasPath(net, x)) && HasPath(t, a) && t.Keys == net.Keys
    requires forall y :: y in net && y != a ==> t[y].parent == net[y].parent
    ensures forall x :: x in t ==> HasPath(t, x)
  {
    forall x | x in t ensures HasPath(t, x) {
      PathAfter(net, t, a, x, Up(net, x));
    }
  }

  lemma StartKeeps(net: Net, a: Id, t: Net)
    requires Valid(net) && a !in net && t == net[a := NEW_AGENT]
    ensures Valid(t)
  {
    forall x | x in t ensures NumbersOk(t, x) && EdgeOk(t, x) {
      if x != a { assert NumbersOk(net, x) && EdgeOk(net, x); }
    }
    assert forall x, y :: x in t && y in t && Siblings(t, x, y) ==> x in net && y in net && Siblings(net, x, y);
    forall x | x in t ensures HasPath(t, x) {
      if x == a { assert Path(t, a, []); } else { GrownPath(net, t, x, Up(net, x)); }
    }
  }

  lemma {:induction false} GrownPath(net: Net, t: Net, x: Id, up: seq<Id>)
    requires Path(net, x, up) && forall y :: y in net ==> y in t && t[y].parent == net[y].parent
    ensures Path(t, x, up) && HasPath(t, x)
    decreases |up|
  {
    if up != [] { GrownPath(net, t, up[0], up[1..]); }
    assert Path(t, x, up);
  }

  lemma StepKeepsValid(net: Net, step: Step)
    requires Valid(net) && Enabled(net, step)
    ensures Valid(Apply(net, step))
  {
    var t := Apply(net, step);
    match step
    case Start(a) => StartKeeps(net, a, t);
    case ServerSubscribes(a, svcs) =>
      SubscribeKeeps(net, a, Up(net, a), svcs, {}, t);
      SamePath(net, t, a, Up(net, a));
      PathsAfter(net, t, a);
    case ServerAdds(a, c, svcs) =>
      AddKeeps(net, a, Up(net, a), c, svcs, {}, t);
      SamePath(net, t, a, Up(net, a));
      PathsAfter(net, t, a);
    case ServerRemoves(a, c, svc) =>
      RemoveKeeps(net, a, Up(net, a), c, svc, {}, t);
      SamePath(net, t, a, Up(net, a));
      PathsAfter(net, t, a);
    case ServerLeaves(a, c, profile) =>
      UnsubscribeKeeps(net, a, Up(net, a), c, profile, {}, t);
      SamePath(net, t, a, Up(net, a));
      PathsAfter(net, t, a);
    case Disconnects(a, profile) =>
      DisconnectKeeps(net, a, Up(net, a), profile, t);
      assert Path(t, a, []);
      PathsAfter(net, t, a);
    case Binds(a, profile, p) =>
      if p != a {
        BindKeeps(net, a, Up(net, a), profile, p, Up(net, p), t);
        PathsAfter(net, t, a);
      }
  }

  ghost predicate IsRun(run: seq<Net>, steps: seq<Step>) {
    && |run| == |steps| + 1 && run[0] == map[]
    && forall i :: 0 <= i < |steps| ==> Enabled(run[i], steps[i]) && run[i + 1] == Apply(run[i], steps[i])
  }

  lemma RunKeepsValid(run: seq<Net>, steps: seq<Step>, i: nat)
    requires IsRun(run, steps) && i < |run|
    ensures Valid(run[i])
  {
    if i > 0 {
      RunKeepsValid(run, steps, i - 1);
      StepKeepsValid(run[i - 1], steps[i - 1]);
    }
  }

  // ---------------------------------------------------------------- what it is for

  /** At every moment of every run a service offered at an agent is listed by every ancestor,
      under the number of the agent next to it on the way down. */
  lemma VisibleUpTheTree(net: Net, a: Id, up: seq<Id>, svc: Service, i: nat)
    requires Valid(net) && Path(net, a, up) && svc in Services(net[a]) && i < |up|
    ensures up[i] in net && svc in Services(net[up[i]])
    ensures var below := if i == 0 then a else up[i - 1];
      below in net && Entry(svc, net[below].childID) in net[up[i]].SrvT
    decreases i
  {
    assert NumbersOk(net, a) && EdgeOk(net, a);
    var p := up[0];
    assert NumbersOk(net, p);
    assert Entry(svc, net[a].childID) in net[p].SrvT;
    if i > 0 {
      VisibleUpTheTree(net, p, up[1..], svc, i - 1);
    }
  }

  /** Conversely, a listed service is offered by a server: `down` leads from its agent y up to
      the agent that lists it, and c is the server's number. */
  lemma ListedIsServed(net: Net, a: Id, up: seq<Id>, svc: Service)
    returns (y: Id, c: int, path: seq<Id>)
    requires Valid(net) && Path(net, a, up) && svc in Services(net[a])
    ensures y in net && Entry(svc, c) in net[y].SrvT && FreeSlot(net, y, c, {})
    ensures Path(net, y, path) && (y == a || a in path)
    decreases |net.Keys| - |up|
  {
    ShortPath(net, a, up);
    assert NumbersOk(net, a);
    var d :| Entry(svc, d) in net[a].SrvT;
    if x :| x in net && net[x].parent == To(a) && net[x].childID == d {
      assert EdgeOk(net, x);
      assert ([a] + up)[1..] == up;
      y, c, path := ListedIsServed(net, x, [a] + up, svc);
      if y == x { PathUnique(net, x, path, [a] + up); } else { AboveToo(net, y, path, x, a); }
    } else {
      y, c, path := a, d, up;
    }
  }

  lemma {:induction false} AboveToo(net: Net, y: Id, path: seq<Id>, x: Id, a: Id)
    requires Path(net, y, path) && x in path && x in net && net[x].parent == To(a)
    ensures a in path
  {
    var i :| 0 <= i < |path| && path[i] == x;
    PathAt(net, y, path, i);
    assert path[i + 1..][0] == a;
  }

  lemma {:induction false} ShortPath(net: Net, a: Id, up: seq<Id>)
    requires Path(net, a, up)
    ensures |up| < |net.Keys|
  {
    DistinctPath(net, a, up);
    var ids := set x | x in up;
    DistinctSize(up, ids);
    NotOwnAncestor(net, a, up);
    assert ids + {a} <= net.Keys;
    SmallerSet(ids + {a}, net.Keys);
  }

  lemma {:induction false} DistinctPath(net: Net, a: Id, up: seq<Id>)
    requires Path(net, a, up)
    ensures Distinct(up)
  {
    forall i, j | 0 <= i < j < |up| ensures up[i] != up[j] {
      PathAt(net, a, up, i);
      NotOwnAncestor(net, up[i], up[i + 1..]);
      assert up[j] == up[i + 1..][j - i - 1];
    }
  }

  lemma DistinctSize(up: seq<Id>, ids: set<Id>)
    requires Distinct(up) && forall x :: x in ids <==> x in up
    ensures |ids| == |up|
    decreases |up|
  {
    if up == [] {
      forall x ensures x !in ids {
        assert x in ids <==> x in up;
      }
    } else {
      DistinctSize(up[1..], ids - {up[0]});
    }
  }
}
