/** How consumers of the queue look for their element (rb_zk.c). */
module ZkSearch {
  import opened Wrappers
  import opened ZkQueue
  import L = ZkLock

  /** c has asked for the elements, or waits for some. */
  predicate IsSearching(c: Consumer) { c.phase.Listing? || c.phase.Replied? || c.phase.Idle? }

  predicate HasFound(c: Consumer) { c.fields.elementPath != "" }

  /** Nobody looks for an element without the lock, in any run. */
  lemma {:induction false} SearchersLead(s: Setup, events: seq<Event>, w: World, m: nat)
    requires s.Valid() && Execute(s, events) == Some(w) && m in w.consumers && IsSearching(w.consumers[m])
    ensures m in w.lock.mutexes && w.lock.mutexes[m].phase.Leading? && !HasFound(w.consumers[m])
  {
    ExecutionKeepsInvariant(s, events);
    InvGivesWatchInv(s, w, m);
    hide L.Inv, StoreInv, PhaseInv;
    assert ConsumerInv(s, w, m);
  }

  /** A lost connection is noticed first as a change of status, and the consumer
      does not take that for the lock: it ends, and asks for nothing. */
  lemma {:induction false} NoticeStartsNoSearch(s: Setup, w: World, session: nat, m: nat)
    requires Inv(s, w) && m in w.consumers && m in w.lock.mutexes && w.lock.mutexes[m].session == session
    requires DoLock(s, w, L.Cleans(session)).Some?
    ensures var after := DoLock(s, w, L.Cleans(session)).value;
      && m in after.consumers && (after.consumers[m].phase.Failed? || after.consumers[m].phase.Done?)
      && (!L.IsGone(w.lock.mutexes[m].phase) ==>
            StatusChanges(w.lock.mutexes[m], after.lock.mutexes[m], L.Cleans(session)))
  {
    hide L.Do, L.Inv, StoreInv, PhaseInv, Coupled, AfterLock, L.Proceeds, BeingDeleted;
    var e := L.Cleans(session);
    assert ConsumerInv(s, w, m);
    L.NobodyComes(s.lock, w.lock, e);
    L.MutexProceeds(s.lock, w.lock, e, m);
    DroppedEnds(w.consumers[m], w.lock.mutexes[m], DoLock(s, w, e).value.lock.mutexes[m], e);
  }

  lemma DroppedEnds(c: Consumer, x: L.Mutex, y: L.Mutex, e: L.Event)
    requires Coupled(c, x) && L.Proceeds(x, y, e) && e == L.Cleans(x.session)
    ensures var d := AfterLock(c, x, y, e); d.phase.Failed? || d.phase.Done?
    ensures !L.IsGone(x.phase) ==> StatusChanges(x, y, e)
  {
  }

  lemma {:induction false} FoundStays(s: Setup, w: World, e: Event, m: nat)
    requires Inv(s, w) && Do(s, w, e).Some? && m in w.consumers && HasFound(w.consumers[m])
    ensures var after := Do(s, w, e).value;
      m in after.consumers && after.consumers[m].fields.elementPath == w.consumers[m].fields.elementPath
  {
    InvGivesWatchInv(s, w, m);
    hide Inv, WatchInv, L.Do, L.NodeAt, DoLock, DoServer, DoClient, L.Place.Name;
    if e.Client? {
      ClientKeepsFound(s, w, e.m, e.client, m);
    } else if e.Server? {
      ServerKeepsFound(s, w, e.m, e.server, m);
    } else if e.LockStep? {
      LockKeepsFound(s, w, e.step, m);
    } else if e.Pops? {
      LockAddsOne(s, w, e.m, e.session);
      ContenderIsThere(s, w, m);
    }
  }

  lemma ContenderIsThere(s: Setup, w: World, m: nat)
    requires Inv(s, w) && m in w.consumers
    ensures m in w.lock.mutexes
  {
  }

  /** The element that c has found is the one that it goes on with. */
  ghost predicate KeepsFound(w: World, after: World, m: nat) {
    && m in w.consumers && m in after.consumers
    && after.consumers[m].fields.elementPath == w.consumers[m].fields.elementPath
  }

  lemma ClientKeepsFound(s: Setup, w: World, n: nat, a: ClientAction, m: nat)
    requires m in w.consumers && WatchInv(w.consumers[m]) && HasFound(w.consumers[m])
    requires n in w.consumers && DoClient(s, w, n, a).Some?
    ensures KeepsFound(w, DoClient(s, w, n, a).value, m)
  {
    hide L.Do, L.NodeAt;
  }

  lemma ServerKeepsFound(s: Setup, w: World, n: nat, a: ServerAction, m: nat)
    requires m in w.consumers && n in w.consumers && DoServer(s, w, n, a).Some?
    ensures KeepsFound(w, DoServer(s, w, n, a).value, m)
  {
    hide L.NodeAt, IsListing;
  }

  lemma LockKeepsFound(s: Setup, w: World, e: L.Event, m: nat)
    requires m in w.consumers && DoLock(s, w, e).Some?
    ensures KeepsFound(w, DoLock(s, w, e).value, m)
  {
    hide L.Do, BeingDeleted;
  }

  /** A consumer that has found its element sticks to it, whatever events come: it
      never looks for another one, in any run. */
  lemma {:induction false} FoundNeverSearchesAgain(s: Setup, events: seq<Event>, more: seq<Event>, w: World,
                                                   after: World, m: nat)
    requires s.Valid() && Execute(s, events) == Some(w) && Execute(s, events + more) == Some(after)
    requires m in w.consumers && HasFound(w.consumers[m])
    ensures m in after.consumers && after.consumers[m].fields.elementPath == w.consumers[m].fields.elementPath
    ensures !IsSearching(after.consumers[m])
    decreases |more|
  {
    var all := events + more;
    if more == [] {
      assert all == events;
    } else {
      var init := more[..|more| - 1];
      assert all[..|all| - 1] == events + init;
      var before := Execute(s, events + init).value;
      FoundNeverSearchesAgain(s, events, init, w, before, m);
      ExecutionKeepsInvariant(s, events + init);
      hide Do, Inv;
      FoundStays(s, before, all[|all| - 1], m);
    }
    if IsSearching(after.consumers[m]) {
      SearchersLead(s, all, after, m);
      assert false;
    }
  }
}
