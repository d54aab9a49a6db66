/** src/utils/AccessController.cc: a counting semaphore with counters of its own, updated in
    several atomic sections. Each method below is one such section, run by one thread; a
    schedule is any sequence of them. */
module AccessController {

  /** Where a thread stands between two atomic sections. */
  datatype Pc =
    | Outside
    | Queued(id: int)   // counted as waiting, blocked on the semaphore or about to be
    | Admitted(id: int) // past the semaphore, diagnostics not run yet
    | Checked(id: int)  // diagnostics run, not counted as admitted yet
    | Holding
    | Releasing         // counted as released, semaphore not posted yet

  /** What `waitForResource` prints after the semaphore let it pass. */
  datatype Diagnostics = Diagnostics(outOfOrder: bool, confusion: bool, unexplained: bool)

  class Controller {
    const resourcesInitial: int
    var semaphore: int
    var numFreeSlots: int
    var numWaiting: int
    var reqCounter: int
    var maxIDReleased: int

    ghost var pcs: map<int, Pc> // every thread that ever called, by its number

    ghost function Waiters(): set<int>
      reads this
    {
      set t | t in pcs && (pcs[t].Queued? || pcs[t].Admitted? || pcs[t].Checked?)
    }

    /** Past the semaphore but not subtracted from numFreeSlots yet. */
    ghost function Uncounted(): set<int>
      reads this
    {
      set t | t in pcs && (pcs[t].Admitted? || pcs[t].Checked?)
    }

    ghost function Holders(): set<int>
      reads this
    {
      set t | t in pcs && pcs[t].Holding?
    }

    ghost function Posters(): set<int>
      reads this
    {
      set t | t in pcs && pcs[t].Releasing?
    }

    /** The counters account for every thread, at every point of every schedule. */
    ghost predicate Valid()
      reads this
    {
      && semaphore >= 0
      && numWaiting == |Waiters()|
      && numFreeSlots == semaphore + |Uncounted()| + |Posters()|
      && semaphore + |Uncounted()| + |Holders()| + |Posters()| == resourcesInitial
      && maxIDReleased < reqCounter
      && IdsBelow(pcs, reqCounter)
    }

    constructor (initialResources: int)
      ensures Valid() && pcs == map[]
      ensures resourcesInitial == if initialResources >= 0 then initialResources else 0
      ensures numFreeSlots == resourcesInitial
    {
      resourcesInitial := if initialResources >= 0 then initialResources else 0;
      semaphore := if initialResources >= 0 then initialResources else 0;
      numFreeSlots := if initialResources >= 0 then initialResources else 0;
      numWaiting, reqCounter, maxIDReleased := 0, 0, -1;
      pcs := map[];
    }

    ghost predicate At(t: int, pc: Pc)
      reads this
    {
      if t in pcs then pcs[t] == pc else pc == Outside
    }

    /** First locked section of waitForResource. */
    method Enqueue(ghost t: int) returns (myReqID: int)
      requires Valid() && At(t, Outside)
      modifies this`reqCounter, this`numWaiting, this`pcs
      ensures Valid() && pcs == old(pcs)[t := Queued(myReqID)]
      ensures myReqID == old(reqCounter) && reqCounter == myReqID + 1 && numWaiting == old(numWaiting) + 1
    {
      myReqID := reqCounter;
      reqCounter := reqCounter + 1;
      numWaiting := numWaiting + 1;
      Arrive(t, myReqID);
    }

    /** The semaphore lets a thread pass; a thread that finds it at 0 stays blocked. */
    method SemaphoreWait(ghost t: int, ghost myReqID: int)
      requires Valid() && At(t, Queued(myReqID)) && semaphore > 0
      modifies this`semaphore, this`pcs
      ensures Valid() && pcs == old(pcs)[t := Admitted(myReqID)] && semaphore == old(semaphore) - 1
    {
      semaphore := semaphore - 1;
      ghost var u := Uncounted();
      ghost var w := Waiters();
      Move(t, Admitted(myReqID));
      assert Uncounted() == u + {t} && Waiters() == w;
    }

    /** The unlocked diagnostics: the two about the counters never fire. */
    method Diagnose(ghost t: int, myReqID: int) returns (d: Diagnostics)
      requires Valid() && At(t, Admitted(myReqID))
      modifies this`pcs
      ensures Valid() && pcs == old(pcs)[t := Checked(myReqID)]
      ensures !d.confusion && !d.unexplained
      ensures d.outOfOrder <==> myReqID != maxIDReleased + 1
    {
      d := Diagnostics(myReqID != maxIDReleased + 1, numFreeSlots <= 0, numWaiting <= 0);
      NotEmpty(Uncounted(), t);
      NotEmpty(Waiters(), t);
      ghost var u := Uncounted();
      ghost var w := Waiters();
      Move(t, Checked(myReqID));
      assert Uncounted() == u && Waiters() == w;
    }

    /** Second locked section of waitForResource. */
    method Dequeue(ghost t: int, myReqID: int)
      requires Valid() && At(t, Checked(myReqID))
      modifies this`numFreeSlots, this`numWaiting, this`maxIDReleased, this`pcs
      ensures Valid() && pcs == old(pcs)[t := Holding]
      ensures numFreeSlots == old(numFreeSlots) - 1 && numWaiting == old(numWaiting) - 1
      ensures maxIDReleased == if myReqID > old(maxIDReleased) then myReqID else old(maxIDReleased)
    {
      numFreeSlots := numFreeSlots - 1;
      numWaiting := numWaiting - 1;
      if myReqID > maxIDReleased {
        maxIDReleased := myReqID;
      }
      ghost var u := Uncounted();
      ghost var w := Waiters();
      ghost var h := Holders();
      Move(t, Holding);
      assert Uncounted() == u - {t} && Waiters() == w - {t} && Holders() == h + {t};
    }

    /** Locked section of releaseResource; called by a thread that holds a resource. */
    method CountRelease(ghost t: int)
      requires Valid() && At(t, Holding)
      modifies this`numFreeSlots, this`pcs
      ensures Valid() && pcs == old(pcs)[t := Releasing] && numFreeSlots == old(numFreeSlots) + 1
    {
      numFreeSlots := numFreeSlots + 1;
      ghost var h := Holders();
      ghost var p := Posters();
      Move(t, Releasing);
      assert Holders() == h - {t} && Posters() == p + {t};
    }

    method SemaphorePost(ghost t: int)
      requires Valid() && At(t, Releasing)
      modifies this`semaphore, this`pcs
      ensures Valid() && pcs == old(pcs)[t := Outside] && semaphore == old(semaphore) + 1
    {
      semaphore := semaphore + 1;
      ghost var p := Posters();
      Move(t, Outside);
      assert Posters() == p - {t};
    }

    ghost method Arrive(t: int, id: int)
      requires At(t, Outside) && IdsBelow(pcs, id)
      modifies this`pcs
      ensures pcs == old(pcs)[t := Queued(id)] && IdsBelow(pcs, id + 1)
      ensures |Waiters()| == old(|Waiters()|) + 1
      ensures Uncounted() == old(Uncounted()) && Holders() == old(Holders()) && Posters() == old(Posters())
    {
      Move(t, Queued(id));
    }

    /** A thread moves; sets it neither enters nor leaves stay the same. */
    ghost method Move(t: int, pc: Pc)
      modifies this`pcs
      ensures pcs == old(pcs)[t := pc]
      ensures Same(old(Waiters()), Waiters(), t, pc.Queued? || pc.Admitted? || pc.Checked?)
      ensures Same(old(Uncounted()), Uncounted(), t, pc.Admitted? || pc.Checked?)
      ensures Same(old(Holders()), Holders(), t, pc.Holding?)
      ensures Same(old(Posters()), Posters(), t, pc.Releasing?)
    {
      pcs := pcs[t := pc];
    }

    /** Mutual exclusion over any number of threads and any schedule, and no slot is ever
        lost: with no thread on its way in or out, the semaphore lets another thread pass
        exactly when fewer than resourcesInitial threads hold a resource. */
    lemma HoldersBounded()
      requires Valid()
      ensures |Holders()| + |Uncounted()| <= resourcesInitial
      ensures 0 <= numFreeSlots <= resourcesInitial
      ensures Uncounted() == {} && Posters() == {} ==>
        numFreeSlots == semaphore && (semaphore > 0 <==> |Holders()| < resourcesInitial)
    {
    }
  }

  ghost predicate IdsBelow(pcs: map<int, Pc>, n: int) {
    forall t :: t in pcs ==>
      match pcs[t]
      case Queued(id) => id < n
      case Admitted(id) => id < n
      case Checked(id) => id < n
      case _ => true
  }

  ghost predicate Same(before: set<int>, after: set<int>, t: int, member: bool) {
    after == if member then before + {t} else before - {t}
  }

  lemma NotEmpty(s: set<int>, t: int)
    requires t in s
    ensures |s| > 0
  {
  }
}
