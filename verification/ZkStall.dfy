/** Consumers of the queue that end, or stop, without giving the lock back
    (rb_zk.c). */
module ZkStall {
  import opened Wrappers
  import opened ZkNames
  import opened ZkQueue
  import A = ZkAbandonment
  import L = ZkLock

  /** Consumer m has failed or stopped, and its contender still leads; or it has
      ended, and its contender has unlocked in vain. */
  ghost predicate KeepsLock(w: World, m: nat) {
    m in w.consumers && m in w.lock.mutexes && Keeps(w.consumers[m], w.lock.mutexes[m])
  }

  predicate Keeps(c: Consumer, x: L.Mutex) {
    ((c.phase.Failed? || c.phase.Stuck?) && x.phase.Leading?) || x.phase.Unasked?
  }

  /** The steps by which that happens: a listing that fails, an element that cannot
      be asked for or is not there any more, and a deletion, of it or of the node
      of the lock, or, at an empty queue, a second listing that cannot be asked for. */
  ghost predicate FailsInside(w: World, m: nat, e: Event) {
    match e
    case Client(n, a) =>
      n == m && m in w.consumers &&
      match a {
        case ListFails => true
        case HandlesMinimum(awgetRc) =>
          var phase := w.consumers[m].phase;
          phase.Replied? && !phase.watch && Least(phase.names).None? && awgetRc != 0
        case GetFails => true
        case HandlesElement(adeleteRc) =>
          w.consumers[m].phase.Got? && (w.consumers[m].phase.value.None? || adeleteRc < 0)
        case HandlesDeleted(connected, adeleteRc) => connected && adeleteRc != 0
        case _ => false
      }
    case _ => false
  }

  /** Exactly when a consumer keeps the lock, over all steps that there are. */
  lemma {:induction false} KeepsLockIff(s: Setup, w: World, e: Event, m: nat)
    requires Inv(s, w) && Do(s, w, e).Some? && !KeepsLock(w, m)
    ensures KeepsLock(Do(s, w, e).value, m) <==> FailsInside(w, m, e)
  {
    hide DoLock, DoServer, DoClient, L.Inv, StoreInv, PhaseInv;
    assert m in w.consumers ==> ConsumerInv(s, w, m);
    if e.LockStep? {
      LockStepRetains(s, w, e.step, m);
    } else if e.Client? {
      assert ConsumerInv(s, w, e.m);
      InvGivesWatchInv(s, w, e.m);
      ClientRetains(s, w, e.m, e.client, m);
    } else if e.Server? {
      ServerRetains(s, w, e.m, e.server, m);
    } else if e.Pops? {
      hide L.Do;
      LockAddsOne(s, w, e.m, e.session);
    }
  }

  lemma LockStepRetains(s: Setup, w: World, e: L.Event, m: nat)
    requires Inv(s, w) && DoLock(s, w, e).Some?
    ensures KeepsLock(DoLock(s, w, e).value, m) <==>
            KeepsLock(w, m) && e != L.Cleans(w.lock.mutexes[m].session)
  {
    hide L.Do, L.Inv, StoreInv, PhaseInv, Coupled, L.Proceeds, AfterLock, BeingDeleted;
    L.NobodyComes(s.lock, w.lock, e);
    if m in w.consumers {
      assert ConsumerInv(s, w, m);
      L.MutexProceeds(s.lock, w.lock, e, m);
      AfterLockRetains(w.consumers[m], w.lock.mutexes[m], DoLock(s, w, e).value.lock.mutexes[m], e);
    }
  }

  lemma AfterLockRetains(c: Consumer, x: L.Mutex, y: L.Mutex, e: L.Event)
    requires Coupled(c, x) && L.Proceeds(x, y, e)
    ensures var d := AfterLock(c, x, y, e);
      Keeps(d, y) <==> Keeps(c, x) && e != L.Cleans(x.session)
  {
  }

  lemma ClientRetains(s: Setup, w: World, n: nat, a: ClientAction, m: nat)
    requires n in w.consumers && n in w.lock.mutexes && Coupled(w.consumers[n], w.lock.mutexes[n])
    requires WatchInv(w.consumers[n]) && DoClient(s, w, n, a).Some?
    ensures KeepsLock(DoClient(s, w, n, a).value, m) <==> KeepsLock(w, m) || FailsInside(w, m, Client(n, a))
  {
    hide L.Do, L.NodeAt, ConsumerMove, WatchInv;
    ConsumerMoveRetains(w.consumers[n], a);
    if a.HandlesDeleted? {
      UnlockMovesOne(s, w, n, a.connected, a.adeleteRc);
    }
  }

  lemma ConsumerMoveRetains(c: Consumer, a: ClientAction)
    requires WatchInv(c) && ConsumerMove(c, a).Some?
    ensures !c.phase.Failed? && Critical(c.phase) && (c.phase.Stuck? ==> a.HandlesChildEvent?)
    ensures var d := ConsumerMove(c, a).value;
      d.phase.Failed? || d.phase.Stuck? <==>
        (|| c.phase.Stuck? || a.ListFails? || a.GetFails?
         || (a.HandlesElement? && (c.phase.value.None? || a.adeleteRc < 0))
         || (a.HandlesMinimum? && Least(c.phase.names).None? && !c.phase.watch && a.awgetRc != 0))
    ensures a.HandlesDeleted? ==> c.phase.Deleted?
    ensures a.HandlesElement? ==> c.phase.Got?
    ensures a.HandlesMinimum? ==> c.phase.Replied?
  {
  }

  lemma ServerRetains(s: Setup, w: World, n: nat, a: ServerAction, m: nat)
    requires n in w.consumers && DoServer(s, w, n, a).Some?
    ensures KeepsLock(DoServer(s, w, n, a).value, m) <==> KeepsLock(w, m)
  {
    hide L.NodeAt, IsListing;
  }

  /** Only the loss of the connection takes the lock from it again. */
  lemma {:induction false} OnlyCleaningEnds(s: Setup, w: World, e: Event, m: nat)
    requires Inv(s, w) && Do(s, w, e).Some? && KeepsLock(w, m)
    ensures KeepsLock(Do(s, w, e).value, m) <==> e != LockStep(L.Cleans(w.lock.mutexes[m].session))
  {
    hide DoLock, DoServer, DoClient, L.Inv, StoreInv, PhaseInv;
    if e.LockStep? {
      LockStepRetains(s, w, e.step, m);
    } else if e.Client? {
      assert ConsumerInv(s, w, e.m);
      InvGivesWatchInv(s, w, e.m);
      ClientRetains(s, w, e.m, e.client, m);
    } else if e.Server? {
      ServerRetains(s, w, e.m, e.server, m);
    } else if e.Pops? {
      hide L.Do;
      LockAddsOne(s, w, e.m, e.session);
    }
  }

  /** Consumer m waits for a lock that its contender does not ask for any more. */
  predicate WaitsInVain(w: World, m: nat) {
    m in w.consumers && m in w.lock.mutexes && w.consumers[m].phase.Waiting? && w.lock.mutexes[m].phase.Stuck?
  }

  /** Exactly when a consumer comes to wait in vain, and how long: nobody tells it
      that the listing of its contender has failed. */
  lemma {:induction false} WaitsInVainIff(s: Setup, w: World, e: Event, m: nat)
    requires Inv(s, w) && Do(s, w, e).Some? && m in w.consumers && m in w.lock.mutexes
    ensures WaitsInVain(Do(s, w, e).value, m) <==>
            || e == LockStep(L.Client(m, L.ListFails))
            || (WaitsInVain(w, m) && e != LockStep(L.Cleans(w.lock.mutexes[m].session)))
  {
    hide DoLock, DoServer, DoClient, L.Inv, StoreInv, PhaseInv, Coupled;
    assert ConsumerInv(s, w, m);
    if e.LockStep? {
      hide WaitsInVain;
      LockStepVain(s, w, e.step, m);
    } else if e.Client? {
      hide WaitsInVain;
      assert ConsumerInv(s, w, e.m);
      ClientVain(s, w, e.m, e.client, m);
    } else if e.Server? {
      hide WaitsInVain;
      ServerVain(s, w, e.m, e.server, m);
    } else if e.Pops? {
      hide L.Do;
      LockAddsOne(s, w, e.m, e.session);
    }
  }

  lemma LockStepVain(s: Setup, w: World, e: L.Event, m: nat)
    requires DoLock(s, w, e).Some? && m in w.consumers && m in w.lock.mutexes
    requires Coupled(w.consumers[m], w.lock.mutexes[m])
    ensures WaitsInVain(DoLock(s, w, e).value, m) <==>
            e == L.Client(m, L.ListFails) || (WaitsInVain(w, m) && e != L.Cleans(w.lock.mutexes[m].session))
  {
    hide L.Do, L.Proceeds, AfterLock, Coupled, BeingDeleted;
    L.NobodyComes(s.lock, w.lock, e);
    L.MutexProceeds(s.lock, w.lock, e, m);
    A.StopsIff(s.lock, w.lock, e, m);
    if e == L.Client(m, L.ListFails) {
      OnlyAskersFail(s, w.lock, m);
    }
    VainAfterLock(w.consumers[m], w.lock.mutexes[m], DoLock(s, w, e).value.lock.mutexes[m], e);
  }

  lemma OnlyAskersFail(s: Setup, st: L.World, m: nat)
    requires m in st.mutexes && L.Do(s.lock, st, L.Client(m, L.ListFails)).Some?
    ensures st.mutexes[m].phase.Asking?
  {
  }

  /** A contender that has stopped, or stops now, tells its consumer nothing. */
  lemma VainAfterLock(c: Consumer, x: L.Mutex, y: L.Mutex, e: L.Event)
    requires Coupled(c, x) && L.Proceeds(x, y, e)
    ensures y.phase.Stuck? && (x.phase.Stuck? || x.phase.Asking?) ==>
              (AfterLock(c, x, y, e).phase.Waiting? <==> c.phase.Waiting?)
    ensures x.phase.Asking? ==> c.phase.Waiting?
  {
  }

  lemma ClientVain(s: Setup, w: World, n: nat, a: ClientAction, m: nat)
    requires n in w.consumers && n in w.lock.mutexes && m in w.consumers && m in w.lock.mutexes
    requires Coupled(w.consumers[n], w.lock.mutexes[n]) && DoClient(s, w, n, a).Some?
    ensures WaitsInVain(DoClient(s, w, n, a).value, m) <==> WaitsInVain(w, m)
  {
    hide L.Do, L.NodeAt, ConsumerMove;
    MoversDoNotWait(w.consumers[n], a);
    if a.HandlesDeleted? {
      UnlockMovesOne(s, w, n, a.connected, a.adeleteRc);
    }
  }

  lemma MoversDoNotWait(c: Consumer, a: ClientAction)
    requires ConsumerMove(c, a).Some?
    ensures !ConsumerMove(c, a).value.phase.Waiting? && !c.phase.Waiting?
  {
  }

  lemma ServerVain(s: Setup, w: World, n: nat, a: ServerAction, m: nat)
    requires n in w.consumers && m in w.consumers && DoServer(s, w, n, a).Some?
    ensures WaitsInVain(DoServer(s, w, n, a).value, m) <==> WaitsInVain(w, m)
  {
    hide L.NodeAt, IsListing;
  }

  /** While m keeps the lock, no other consumer gets into the section. */
  lemma {:induction false} NobodyElseInSection(s: Setup, w: World, m: nat, n: nat)
    requires Inv(s, w) && KeepsLock(w, m) && w.lock.dead == {} && n in w.consumers && Critical(w.consumers[n].phase)
    ensures n == m && w.consumers[m].phase.Stuck?
  {
    hide L.Inv, StoreInv, PhaseInv;
    assert ConsumerInv(s, w, n);
    L.OnlyOneLeads(s.lock, w.lock, m, n);
  }

  /** The steps that can get the queue going again. */
  predicate Relieves(e: Event, session: nat) {
    e.LockStep? && (e.step.Expires? || e.step == L.Cleans(session))
  }

  lemma {:induction false} StepDeliversNothing(s: Setup, w: World, e: Event, m: nat)
    requires Inv(s, w) && Do(s, w, e).Some? && KeepsLock(w, m) && w.lock.dead == {}
    requires !Relieves(e, w.lock.mutexes[m].session)
    ensures var after := Do(s, w, e).value;
      && KeepsLock(after, m) && after.delivered == w.delivered && after.lock.dead == {}
      && after.lock.mutexes[m].session == w.lock.mutexes[m].session
  {
    hide Inv, KeepsLock, DoLock, DoServer, DoClient, L.Do;
    OnlyCleaningEnds(s, w, e, m);
    KeeperIsThere(w, m);
    if e.Client? {
      OnlyAnEvent(s, w, e.m, e.client, m);
    } else if e.LockStep? {
      LockStepDelivers(s, w, e.step, m);
    } else if e.Server? {
      ServerDelivers(s, w, e.m, e.server);
    } else if e.Pops? {
      LockAddsOne(s, w, e.m, e.session);
    }
  }

  /** All that is left for a client to do is to ignore an event. */
  lemma OnlyAnEvent(s: Setup, w: World, n: nat, a: ClientAction, m: nat)
    requires Inv(s, w) && KeepsLock(w, m) && w.lock.dead == {} && n in w.consumers && DoClient(s, w, n, a).Some?
    ensures a.HandlesChildEvent?
    ensures DoClient(s, w, n, a).value == Set(w, n, ConsumerMove(w.consumers[n], a).value)
  {
    hide Inv, KeepsLock, ConsumerMove, L.Do, WatchInv;
    InvGivesWatchInv(s, w, n);
    ConsumerMoveRetains(w.consumers[n], a);
    NobodyElseInSection(s, w, m, n);
  }

  lemma LockStepDelivers(s: Setup, w: World, e: L.Event, m: nat)
    requires DoLock(s, w, e).Some? && m in w.lock.mutexes
    ensures var after := DoLock(s, w, e).value;
      && after.delivered == w.delivered && m in after.lock.mutexes
      && after.lock.mutexes[m].session == w.lock.mutexes[m].session
      && after.lock.dead == if e.Expires? then w.lock.dead + {e.session} else w.lock.dead
  {
    hide L.Do, AfterLock, BeingDeleted;
    L.NobodyComes(s.lock, w.lock, e);
    L.MutexProceeds(s.lock, w.lock, e, m);
  }

  lemma ServerDelivers(s: Setup, w: World, n: nat, a: ServerAction)
    requires n in w.consumers && DoServer(s, w, n, a).Some?
    ensures var after := DoServer(s, w, n, a).value; after.delivered == w.delivered && after.lock == w.lock
  {
    hide L.NodeAt, IsListing;
  }

  lemma KeeperIsThere(w: World, m: nat)
    requires KeepsLock(w, m)
    ensures m in w.lock.mutexes
  {
  }

  /** And so nothing is delivered any more, to anybody, until the connection of m
      is lost or a session expires. */
  lemma {:induction false} KeptLockStalls(s: Setup, events: seq<Event>, more: seq<Event>, m: nat, w: World,
                                          after: World)
    requires s.Valid() && Execute(s, events) == Some(w) && Execute(s, events + more) == Some(after)
    requires KeepsLock(w, m) && w.lock.dead == {}
    requires forall k :: 0 <= k < |more| ==> !Relieves(more[k], w.lock.mutexes[m].session)
    ensures KeepsLock(after, m) && after.delivered == w.delivered && after.lock.dead == {}
    ensures after.lock.mutexes[m].session == w.lock.mutexes[m].session
    decreases |more|
  {
    if more == [] {
      assert events + more == events;
    } else {
      hide Do, Execute, Inv, KeepsLock, Relieves;
      var init := more[..|more| - 1];
      LastStep(s, events, more);
      var before := Execute(s, events + init).value;
      KeptLockStalls(s, events, init, m, w, before);
      ExecutionKeepsInvariant(s, events + init);
      StepDeliversNothing(s, before, more[|more| - 1], m);
    }
  }

  lemma LastStep(s: Setup, events: seq<Event>, more: seq<Event>)
    requires s.Valid() && more != [] && Execute(s, events + more).Some?
    ensures var before := Execute(s, events + more[..|more| - 1]);
      before.Some? && Do(s, before.value, more[|more| - 1]) == Execute(s, events + more)
  {
    hide Do;
    var all := events + more;
    assert all[..|all| - 1] == events + more[..|more| - 1];
  }
}
