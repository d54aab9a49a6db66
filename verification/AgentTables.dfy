/** The methods of AgentImpl and LocalAgentImpl that keep the service tables, run step by step
    and proved to have the effect that ServiceTree describes. */
module AgentTables {
  import opened Common
  import opened ServiceTree

  lemma {:induction false} StillAbove(net: Net, a: Id, up: seq<Id>, profiles: seq<Service>, p: Id, above: seq<Id>,
                                      t: Net)
    requires Path(net, a, up) && (forall x :: x in up ==> x in net)
    requires Path(net, p, above) && p != a && a !in above
    requires var off := ServiceTree.Disconnect(net, a, up, profiles); t == off[a := off[a].(parent := To(p))]
    ensures Path(t, p, above)
  {
    var off := Disconnect(net, a, up, profiles);
    forall x | x in net && x != a ensures t[x].parent == net[x].parent {
    }
    PathAvoids(net, t, a, p, above);
  }

  /** The service is listed at a, and at every ancestor that is told to remove it. */
  predicate RemovedUpwards(net: Net, a: Id, up: seq<Id>, c: int, svc: Service)
    requires a in net && forall x :: x in up ==> x in net
    decreases |up|
  {
    && Entry(svc, c) in net[a].SrvT
    && var t := Leave(net, a, c, {svc});
      (up != [] && svc !in Services(t[a]) ==> RemovedUpwards(t, up[0], up[1..], t[a].childID, svc))
  }

  /** In consistent tables a listed service is listed as far up as it is removed. */
  lemma {:induction false} RemovalSucceeds(net: Net, a: Id, up: seq<Id>, c: int, svc: Service, bad: set<Id>)
    requires Wf(net, bad) && Path(net, a, up) && a !in bad && (forall x :: x in up ==> x in net && x !in bad)
    requires FreeSlot(net, a, c, bad) && Entry(svc, c) in net[a].SrvT
    ensures RemovedUpwards(net, a, up, c, svc)
    decreases |up|
  {
    NotOwnAncestor(net, a, up);
    assert NumbersOk(net, a) && EdgeOk(net, a) && svc in Services(net[a]);
    var t := Leave(net, a, c, {svc});
    LeftWf(net, a, c, {svc}, bad, t);
    if up != [] && svc !in Services(t[a]) {
      SiblingsElsewhere(net, a, bad);
      SamePath(net, t, up[0], up[1..]);
      RemovalSucceeds(t, up[0], up[1..], t[a].childID, svc, bad + {a});
    }
  }

  // ---------------------------------------------------------------- the objects

  /** All agents, reached by their names; a method named after the source's runs it at agent a.
      `up` only shows that the calls to the parents end. */
  class Agents {
    var net: Net

    constructor ()
      ensures net == map[]
    {
      net := map[];
    }

    method GetProfiles(a: Id) returns (profiles: seq<Service>)
      requires a in net
      ensures AsSet(profiles) == Services(net[a])
    {
      profiles := [];
      var todo := net[a].SrvT;
      while todo != {}
        invariant todo <= net[a].SrvT
        invariant forall e :: e in net[a].SrvT && e !in todo ==> e.service in profiles
        invariant forall s :: s in profiles ==> s in Services(net[a])
      {
        var e := AnyOf(todo);
        assert Entry(e.service, e.child) == e;
        if e.service !in profiles {
          profiles := profiles + [e.service];
        }
        todo := todo - {e};
      }
    }

    method EnterEach(a: Id, c: int, svcs: seq<Service>)
      requires a in net
      modifies this
      ensures net == Enter(old(net), a, c, AsSet(svcs))
    {
      assert net[a].SrvT + EntriesOf(AsSet(svcs[..0]), c) == net[a].SrvT && net == net[a := net[a]];
      for i := 0 to |svcs|
        invariant net == Enter(old(net), a, c, AsSet(svcs[..i]))
      {
        assert AsSet(svcs[..i + 1]) == AsSet(svcs[..i]) + {svcs[i]};
        net := net[a := net[a].(SrvT := net[a].SrvT + {Entry(svcs[i], c)})];
        assert net[a].SrvT == old(net[a].SrvT) + EntriesOf(AsSet(svcs[..i + 1]), c);
      }
      assert svcs[..|svcs|] == svcs;
    }

    /** LocalAgentImpl::addServices; at the master agent AgentImpl::addServices. */
    method AddServices(a: Id, ghost up: seq<Id>, c: int, svcs: seq<Service>)
      requires Path(net, a, up) && forall x :: x in up ==> x in net
      modifies this
      ensures net == ServiceTree.AddServices(old(net), a, up, c, AsSet(svcs))
      decreases |up|, 0
    {
      if net[a].childID == -1 {
        EnterEach(a, c, svcs);
        if net[a].parent.To? {
          var p := net[a].parent.id;
          assert p in up;
          var profiles := GetProfiles(a);
          SamePath(old(net), net, p, up[1..]);
          var id := AgentSubscribe(p, up[1..], profiles);
          net := net[a := net[a].(childID := id)];
        }
      } else {
        if net[a].parent.To? {
          AddServices(net[a].parent.id, up[1..], net[a].childID, svcs);
        }
        EnterEach(a, c, svcs);
      }
    }

    method AgentSubscribe(a: Id, ghost up: seq<Id>, svcs: seq<Service>) returns (id: int)
      requires Path(net, a, up) && forall x :: x in up ==> x in net
      modifies this
      ensures net == Subscribe(old(net), a, up, AsSet(svcs)) && id == old(net[a].childIDCounter)
      decreases |up|, 1
    {
      id := net[a].childIDCounter;
      net := net[a := net[a].(childIDCounter := net[a].childIDCounter + 1)];
      SamePath(old(net), net, a, up);
      AddServices(a, up, id, svcs);
    }

    /** childRemoveService; it fails when the service is not listed. */
    method ChildRemoveService(a: Id, ghost up: seq<Id>, c: int, svc: Service) returns (ok: bool)
      requires Path(net, a, up) && forall x :: x in up ==> x in net
      modifies this
      ensures net == RemoveService(old(net), a, up, c, svc)
      ensures ok <==> RemovedUpwards(old(net), a, up, c, svc)
      ensures Wf(old(net), {}) && FreeSlot(old(net), a, c, {}) ==> (ok <==> Entry(svc, c) in old(net[a].SrvT))
      decreases |up|
    {
      if Wf(net, {}) && FreeSlot(net, a, c, {}) && Entry(svc, c) in net[a].SrvT {
        RemovalSucceeds(net, a, up, c, svc, {});
      }
      if Entry(svc, c) !in net[a].SrvT {
        return false;
      }
      net := net[a := net[a].(SrvT := net[a].SrvT - {Entry(svc, c)})];
      assert net == Leave(old(net), a, c, {svc}) by {
        assert EntriesOf({svc}, c) == {Entry(svc, c)};
      }
      ok := true;
      if net[a].parent.To? && svc !in Services(net[a]) {
        SamePath(old(net), net, net[a].parent.id, up[1..]);
        ok := ChildRemoveService(net[a].parent.id, up[1..], net[a].childID, svc);
      }
    }

    method ChildUnsubscribe(a: Id, ghost up: seq<Id>, c: int, svcs: seq<Service>)
      requires Path(net, a, up) && forall x :: x in up ==> x in net
      modifies this
      ensures net == ServiceTree.ChildUnsubscribe(old(net), a, up, c, svcs)
    {
      LeaveEach(a, c, svcs);
      if net[a].parent.To? {
        ghost var e := net;
        SamePath(old(net), e, a, up);
        for i := 0 to |svcs|
          invariant a in net && net == RemoveEach(e, a, up, svcs, i)
        {
          if svcs[i] !in Services(net[a]) {
            SamePath(e, net, up[0], up[1..]);
            var ok := ChildRemoveService(net[a].parent.id, up[1..], net[a].childID, svcs[i]);
          }
        }
      }
    }

    method LeaveEach(a: Id, c: int, svcs: seq<Service>)
      requires a in net
      modifies this
      ensures net == Leave(old(net), a, c, AsSet(svcs))
    {
      assert net[a].SrvT - EntriesOf(AsSet(svcs[..0]), c) == net[a].SrvT && net == net[a := net[a]];
      for i := 0 to |svcs|
        invariant net == Leave(old(net), a, c, AsSet(svcs[..i]))
      {
        assert AsSet(svcs[..i + 1]) == AsSet(svcs[..i]) + {svcs[i]};
        net := net[a := net[a].(SrvT := net[a].SrvT - {Entry(svcs[i], c)})];
        assert net[a].SrvT == old(net[a].SrvT) - EntriesOf(AsSet(svcs[..i + 1]), c);
      }
      assert svcs[..|svcs|] == svcs;
    }

    /** disconnect, with the list of services it has just asked for. */
    method Disconnect(a: Id, ghost up: seq<Id>) returns (profiles: seq<Service>)
      requires Path(net, a, up) && forall x :: x in up ==> x in net
      modifies this
      ensures AsSet(profiles) == Services(old(net[a]))
      ensures net == ServiceTree.Disconnect(old(net), a, up, profiles)
    {
      profiles := GetProfiles(a);
      if net[a].parent.To? {
        if net[a].childID != -1 {
          ChildUnsubscribe(net[a].parent.id, up[1..], net[a].childID, profiles);
        }
        net := net[a := net[a].(parent := Nil, childID := -1)];
      }
    }

    /** bindParent; it fails when the given parent is the agent itself. */
    method BindParent(a: Id, ghost up: seq<Id>, p: Id, ghost above: seq<Id>) returns (ok: bool, profiles: seq<Service>)
      requires Path(net, a, up) && (forall x :: x in up ==> x in net)
      requires Path(net, p, above) && (forall x :: x in above ==> x in net) && a !in above
      modifies this
      ensures ok <==> p != a
      ensures AsSet(profiles) == Services(old(net[a]))
      ensures net == ServiceTree.BindParent(old(net), a, up, profiles, p, above)
    {
      if p == a {
        profiles := GetProfiles(a);
        return false, profiles;
      }
      profiles := Disconnect(a, up);
      net := net[a := net[a].(parent := To(p))];
      ok := true;
      if profiles != [] {
        StillAbove(old(net), a, up, profiles, p, above, net);
        var id := AgentSubscribe(p, above, profiles);
        net := net[a := net[a].(childID := id)];
      }
    }
  }
}
