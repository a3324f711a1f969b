/** How often an element of the queue is released, over all runs (rb_zk.c). */
module ZkRelease {
  import opened Wrappers
  import opened ZkQueue
  import L = ZkLock

  predicate HasEnded(phase: Phase) { phase.Done? || phase.Failed? }

  /** The references that are left: one until the consumer ends, and then none,
      unless its contender was still there to be cleaned. */
  ghost predicate Counted(c: Consumer, x: L.Mutex) {
    if HasEnded(c.phase) then c.fields.refcnt == 0 || (c.fields.refcnt == -1 && L.IsGone(x.phase))
    else c.fields.refcnt == 1
  }

  ghost predicate AllCounted(w: World) {
    forall m :: m in w.consumers && m in w.lock.mutexes ==> Counted(w.consumers[m], w.lock.mutexes[m])
  }

  /** The connection of consumer m is lost after it has ended, but before its
      contender has. */
  ghost predicate CleanedLate(w: World, e: Event, m: nat) {
    && m in w.consumers && m in w.lock.mutexes
    && HasEnded(w.consumers[m].phase) && !L.IsGone(w.lock.mutexes[m].phase)
    && e == LockStep(L.Cleans(w.lock.mutexes[m].session))
  }

  ghost predicate ReleasedTwice(w: World, m: nat) { m in w.consumers && w.consumers[m].fields.refcnt < 0 }

  /** A step of the lock: x goes to y, and c learns of it. */
  lemma LockCounts(c: Consumer, x: L.Mutex, y: L.Mutex, e: L.Event)
    requires Counted(c, x) && Coupled(c, x) && L.Proceeds(x, y, e)
    ensures var d := AfterLock(c, x, y, e);
      && Counted(d, y)
      && (d.fields.refcnt < 0 <==>
            c.fields.refcnt < 0 || (HasEnded(c.phase) && !L.IsGone(x.phase) && e == L.Cleans(x.session)))
  {
  }

  /** One consumer in one step. */
  ghost predicate CountsOn(w: World, after: World, e: Event, m: nat) {
    && m in after.consumers && m in after.lock.mutexes
    && Counted(after.consumers[m], after.lock.mutexes[m])
    && (ReleasedTwice(after, m) <==> ReleasedTwice(w, m) || CleanedLate(w, e, m))
  }

  lemma LockStepCounts(s: Setup, w: World, e: L.Event, m: nat)
    requires Inv(s, w) && AllCounted(w) && DoLock(s, w, e).Some? && m in DoLock(s, w, e).value.consumers
    ensures CountsOn(w, DoLock(s, w, e).value, LockStep(e), m)
  {
    hide L.Do, L.Inv, StoreInv, PhaseInv, Coupled, L.Proceeds, AfterLock, Counted;
    assert ConsumerInv(s, w, m);
    L.MutexProceeds(s.lock, w.lock, e, m);
    LockCounts(w.consumers[m], w.lock.mutexes[m], DoLock(s, w, e).value.lock.mutexes[m], e);
  }

  lemma PopCounts(s: Setup, w: World, n: nat, session: nat, m: nat)
    requires Inv(s, w) && AllCounted(w) && Do(s, w, Pops(n, session)).Some?
    requires m in Do(s, w, Pops(n, session)).value.consumers
    ensures CountsOn(w, Do(s, w, Pops(n, session)).value, Pops(n, session), m)
  {
    hide L.Do, L.Inv, StoreInv, ConsumerInv;
    LockAddsOne(s, w, n, session);
  }

  lemma PushCounts(s: Setup, w: World, value: string, m: nat)
    requires Inv(s, w) && AllCounted(w) && Do(s, w, Pushes(value)).Some? && m in Do(s, w, Pushes(value)).value.consumers
    ensures CountsOn(w, Do(s, w, Pushes(value)).value, Pushes(value), m)
  {
    hide L.Inv, StoreInv, ConsumerInv, L.Place.Name;
  }

  lemma ServerCounts(s: Setup, w: World, n: nat, a: ServerAction, m: nat)
    requires Inv(s, w) && AllCounted(w) && n in w.consumers && DoServer(s, w, n, a).Some?
    requires m in DoServer(s, w, n, a).value.consumers
    ensures CountsOn(w, DoServer(s, w, n, a).value, Server(n, a), m)
  {
    hide L.Inv, StoreInv, ConsumerInv, L.NodeAt, IsListing;
  }

  lemma ClientCounts(s: Setup, w: World, n: nat, a: ClientAction, m: nat)
    requires Inv(s, w) && AllCounted(w) && n in w.consumers && DoClient(s, w, n, a).Some?
    requires m in DoClient(s, w, n, a).value.consumers
    ensures CountsOn(w, DoClient(s, w, n, a).value, Client(n, a), m)
  {
    hide L.Inv, StoreInv, PhaseInv, Coupled;
    assert ConsumerInv(s, w, n);
    assert m in w.consumers ==> ConsumerInv(s, w, m);
    hide Inv;
    if a.HandlesDeleted? {
      UnlockCounts(s, w, n, a.connected, a.adeleteRc, m);
    } else {
      OwnCounts(s, w, n, a, m);
    }
  }

  lemma UnlockCounts(s: Setup, w: World, n: nat, connected: bool, adeleteRc: int, m: nat)
    requires AllCounted(w) && n in w.consumers && n in w.lock.mutexes
    requires DoClient(s, w, n, HandlesDeleted(connected, adeleteRc)).Some?
    requires m in DoClient(s, w, n, HandlesDeleted(connected, adeleteRc)).value.consumers
    requires m in w.lock.mutexes
    ensures var a := HandlesDeleted(connected, adeleteRc); CountsOn(w, DoClient(s, w, n, a).value, Client(n, a), m)
  {
    hide L.Do, L.NodeAt;
    UnlockMovesOne(s, w, n, connected, adeleteRc);
  }

  lemma OwnCounts(s: Setup, w: World, n: nat, a: ClientAction, m: nat)
    requires AllCounted(w) && n in w.consumers && n in w.lock.mutexes && m in w.lock.mutexes && !a.HandlesDeleted?
    requires DoClient(s, w, n, a).Some? && m in DoClient(s, w, n, a).value.consumers
    ensures CountsOn(w, DoClient(s, w, n, a).value, Client(n, a), m)
  {
    hide L.Do, L.NodeAt, ZkNames.Least, ZkNames.Parent;
  }

  lemma LateDeletionCounts(s: Setup, w: World, name: string, m: nat)
    requires Inv(s, w) && AllCounted(w) && Do(s, w, LateDeletion(name)).Some?
    requires m in Do(s, w, LateDeletion(name)).value.consumers
    ensures CountsOn(w, Do(s, w, LateDeletion(name)).value, LateDeletion(name), m)
  {
    hide L.Inv, StoreInv, ConsumerInv;
  }

  lemma StepCounts(s: Setup, w: World, e: Event, m: nat)
    requires Inv(s, w) && AllCounted(w) && Do(s, w, e).Some? && m in Do(s, w, e).value.consumers
    ensures CountsOn(w, Do(s, w, e).value, e, m)
  {
    hide Inv, AllCounted, CountsOn, DoLock, DoServer, DoClient;
    if e.Pushes? {
      PushCounts(s, w, e.value, m);
    } else if e.Pops? {
      PopCounts(s, w, e.m, e.session, m);
    } else if e.LockStep? {
      LockStepCounts(s, w, e.step, m);
    } else if e.Server? {
      ServerCounts(s, w, e.m, e.server, m);
    } else if e.LateDeletion? {
      LateDeletionCounts(s, w, e.name, m);
    } else {
      ClientCounts(s, w, e.m, e.client, m);
    }
  }

  lemma {:induction false} ExecutionCounts(s: Setup, events: seq<Event>, w: World)
    requires s.Valid() && Execute(s, events) == Some(w)
    ensures AllCounted(w)
    decreases |events|
  {
    if events != [] {
      hide Inv, Do, Counted;
      var init, e := events[..|events| - 1], events[|events| - 1];
      var before := Execute(s, init).value;
      ExecutionKeepsInvariant(s, init);
      ExecutionCounts(s, init, before);
      forall m | m in w.consumers && m in w.lock.mutexes
        ensures Counted(w.consumers[m], w.lock.mutexes[m])
      {
        StepCounts(s, before, e, m);
      }
    }
  }

  /** Somewhere in the run, m was cleaned after it had ended. */
  ghost predicate EverCleanedLate(s: Setup, events: seq<Event>, m: nat)
    requires s.Valid()
    decreases |events|
  {
    events != [] &&
    var init := events[..|events| - 1];
    EverCleanedLate(s, init, m)
    || (Execute(s, init).Some? && CleanedLate(Execute(s, init).value, events[|events| - 1], m))
  }

  /** Over all runs: a consumer holds one reference until it ends, and afterwards
      it has released it exactly once, unless it was cleaned after it had ended;
      then, and only then, it has released it twice. */
  lemma {:induction false} ReleasedTwiceIff(s: Setup, events: seq<Event>, w: World, m: nat)
    requires s.Valid() && Execute(s, events) == Some(w) && m in w.consumers
    ensures w.consumers[m].fields.refcnt ==
            if !HasEnded(w.consumers[m].phase) then 1 else if EverCleanedLate(s, events, m) then -1 else 0
    decreases |events|
  {
    TwiceIff(s, events, w, m);
    ExecutionCounts(s, events, w);
    ExecutionKeepsInvariant(s, events);
    hide Execute, EverCleanedLate;
    assert ConsumerInv(s, w, m);
  }

  lemma {:induction false} TwiceIff(s: Setup, events: seq<Event>, w: World, m: nat)
    requires s.Valid() && Execute(s, events) == Some(w)
    ensures ReleasedTwice(w, m) <==> EverCleanedLate(s, events, m)
    decreases |events|
  {
    if events != [] {
      hide Inv, Do, Counted, CleanedLate, ReleasedTwice;
      var init, e := events[..|events| - 1], events[|events| - 1];
      var before := Execute(s, init).value;
      ExecutionKeepsInvariant(s, init);
      ExecutionCounts(s, init, before);
      TwiceIff(s, init, before, m);
      TwiceStays(s, before, e, m);
    }
  }

  lemma TwiceStays(s: Setup, w: World, e: Event, m: nat)
    requires Inv(s, w) && AllCounted(w) && Do(s, w, e).Some?
    ensures ReleasedTwice(Do(s, w, e).value, m) <==> ReleasedTwice(w, m) || CleanedLate(w, e, m)
  {
    if m in Do(s, w, e).value.consumers {
      StepCounts(s, w, e, m);
    }
    if m in w.consumers {
      ConsumersStay(s, w, e, m);
    }
  }

  lemma ConsumersStay(s: Setup, w: World, e: Event, m: nat)
    requires Do(s, w, e).Some? && m in w.consumers
    ensures m in Do(s, w, e).value.consumers
  {
    hide L.Do, L.NodeAt, L.Place.Name, AfterLock;
  }
}
