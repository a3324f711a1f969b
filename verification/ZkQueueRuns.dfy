/** Runs of the queue in which something goes wrong (rb_zk.c). */
module ZkQueueRuns {
  import opened Wrappers
  import opened ZkNames
  import opened ZkQueue
  import opened ZkRelease
  import opened ZkSearch
  import opened ZkStall
  import A = ZkAbandonment
  import L = ZkLock

  /** One consumer, at an empty queue. */
  function Only(lock: L.World, c: Consumer): World { World(lock, map[], [], map[0 := c], [], {}) }

  function Fresh(s: Setup): Fields { Fields(Child(s.queue.parent, s.queue.prefix), "", false, 1) }

  lemma {:induction false} ExecuteOneMore(s: Setup, events: seq<Event>, e: Event, w: World, after: World)
    requires s.Valid() && Execute(s, events) == Some(w) && Do(s, w, e) == Some(after)
    ensures Execute(s, events + [e]) == Some(after)
  {
    assert (events + [e])[..|events|] == events;
    hide Do;
  }

  /** A step of the lock, when nothing is being deleted. */
  lemma OnlyLockStep(s: Setup, lock: L.World, next: L.World, c: Consumer, e: L.Event)
    requires L.Do(s.lock, lock, e) == Some(next) && !e.Locks? && !(e.Client? && e.client.Unlocks?)
    requires lock.mutexes.Keys == next.mutexes.Keys == {0} && !c.phase.Deleting?
    ensures Do(s, Only(lock, c), LockStep(e)) ==
            Some(Only(next, AfterLock(c, lock.mutexes[0], next.mutexes[0], e)))
  {
    hide L.Do, L.NodeAt, AfterLock;
    var w := Only(lock, c);
    assert forall session :: BeingDeleted(s, w, session) == {};
    var after := DoLock(s, w, e).value;
    assert after.consumers == map[0 := AfterLock(c, lock.mutexes[0], next.mutexes[0], e)];
    assert after.late == {};
  }

  /** The consumer comes, and its contender has its node. */
  lemma {:induction false} ConsumerComes(s: Setup) returns (events: seq<Event>)
    requires s.Valid()
    ensures Execute(s, events) ==
            Some(Only(A.Alone(s.lock, Child(s.lock.parent, s.lock.Name(0)), false, L.Asking(s.lock.parent)),
                      Consumer(Fresh(s), Waiting, NoWatch)))
  {
    hide L.Do, Do, Child, SequenceName, Execute;
    var prefix, path := Child(s.lock.parent, s.lock.prefix), Child(s.lock.parent, s.lock.Name(0));
    var l0 := L.World(map[], 0, {}, map[0 := L.Mutex(0, L.Fields(prefix, false), L.Creating, 0, 0)]);
    var l1 := A.Alone(s.lock, prefix, false, L.Replied(path));
    var l2 := A.Alone(s.lock, path, false, L.Asking(s.lock.parent));
    var c := Consumer(Fresh(s), Waiting, NoWatch);
    var e0 := [Pops(0, 0)];
    var e1 := e0 + [LockStep(L.Server(0, L.Creates))];
    A.LoneCreation(s.lock);
    A.LoneListing(s.lock);
    FirstPops(s, l0);
    OnlyLockStep(s, l0, l1, c, L.Server(0, L.Creates));
    OnlyLockStep(s, l1, l2, c, L.Client(0, L.HandlesCreated(0)));
    NothingExecuted(s);
    assert [] + e0 == e0;
    ExecuteOneMore(s, [], Pops(0, 0), START, Only(l0, c));
    ExecuteOneMore(s, e0, LockStep(L.Server(0, L.Creates)), Only(l0, c), Only(l1, c));
    ExecuteOneMore(s, e1, LockStep(L.Client(0, L.HandlesCreated(0))), Only(l1, c), Only(l2, c));
    events := e1 + [LockStep(L.Client(0, L.HandlesCreated(0)))];
  }

  lemma NothingExecuted(s: Setup)
    requires s.Valid()
    ensures Execute(s, []) == Some(START)
  {
  }

  /** Then it obtains the lock, and asks for the elements. */
  lemma {:induction false} ConsumerObtains(s: Setup) returns (events: seq<Event>)
    requires s.Valid()
    ensures Execute(s, events) ==
            Some(Only(A.Alone(s.lock, Child(s.lock.parent, s.lock.Name(0)), true, L.Leading),
                      Consumer(Fresh(s), Listing(Parent(Fresh(s).path), false), NoWatch)))
  {
    hide L.Do, Do, Child, SequenceName, Execute, Parent;
    var names, path := [Some(s.lock.Name(0))], Child(s.lock.parent, s.lock.Name(0));
    var l2 := A.Alone(s.lock, path, false, L.Asking(s.lock.parent));
    var l3 := A.Alone(s.lock, path, false, L.Answered(names));
    var l4 := A.Alone(s.lock, path, true, L.Leading);
    var c := Consumer(Fresh(s), Waiting, NoWatch);
    var e2 := ConsumerComes(s);
    var e3 := e2 + [LockStep(L.Server(0, L.Lists(names)))];
    A.LoneListing(s.lock);
    A.LoneDecision(s.lock);
    OnlyLockStep(s, l2, l3, c, L.Server(0, L.Lists(names)));
    OnlyLockStep(s, l3, l4, c, L.Client(0, L.HandlesChildren));
    ExecuteOneMore(s, e2, LockStep(L.Server(0, L.Lists(names))), Only(l2, c), Only(l3, c));
    ExecuteOneMore(s, e3, LockStep(L.Client(0, L.HandlesChildren)), Only(l3, c),
                   Only(l4, Consumer(Fresh(s), Listing(Parent(Fresh(s).path), false), NoWatch)));
    events := e3 + [LockStep(L.Client(0, L.HandlesChildren))];
  }

  lemma FirstPops(s: Setup, lock: L.World)
    requires L.Do(s.lock, L.START, L.Locks(0, 0)) == Some(lock)
    ensures Do(s, START, Pops(0, 0)) == Some(Only(lock, Consumer(Fresh(s), Waiting, NoWatch)))
  {
    hide L.Do, Child;
  }

  /** One consumer, with the lock, and elements. */
  function Inside(s: Setup, elements: map<string, string>, pushed: seq<string>, c: Consumer): World {
    World(A.Alone(s.lock, Child(s.lock.parent, s.lock.Name(0)), true, L.Leading), elements, pushed, map[0 := c], [], {})
  }

  function Searching(s: Setup, watch: bool): Consumer {
    Consumer(Fresh(s), Listing(s.queue.parent, watch), NoWatch)
  }

  /** It finds nothing, and asks again, with a watch. */
  lemma {:induction false} ConsumerFindsNothing(s: Setup) returns (events: seq<Event>)
    requires s.Valid()
    ensures Execute(s, events) == Some(Inside(s, map[], [], Searching(s, true)))
  {
    var c0, c2 := Searching(s, false), Searching(s, true);
    var c1 := c0.(phase := ZkQueue.Replied([], false));
    var e0 := ConsumerObtains(s);
    var e1 := e0 + [Server(0, Lists([]))];
    QueuePaths(s);
    EmptyListing(s, c0, c1, c2);
    hide Execute, Do, Child, SequenceName, Parent, A.Alone;
    ExecuteOneMore(s, e0, Server(0, Lists([])), Inside(s, map[], [], c0), Inside(s, map[], [], c1));
    ExecuteOneMore(s, e1, Client(0, HandlesMinimum(0)), Inside(s, map[], [], c1), Inside(s, map[], [], c2));
    events := e1 + [Client(0, HandlesMinimum(0))];
  }

  function Found(s: Setup): Consumer {
    var path := Child(s.queue.parent, s.queue.Name(0));
    Consumer(Fields(Fresh(s).path, path, true, 1), Getting(path), Pending)
  }

  /** An element is pushed before that, and found. */
  lemma {:induction false} ConsumerFinds(s: Setup) returns (events: seq<Event>)
    requires s.Valid()
    ensures Execute(s, events) == Some(Inside(s, map[s.queue.Name(0) := ""], [""], Found(s)))
  {
    var names, first, c2 := [Some(s.queue.Name(0))], map[s.queue.Name(0) := ""], Searching(s, true);
    var c3 := c2.(phase := ZkQueue.Replied(names, true), watch := Pending);
    var e0 := ConsumerFindsNothing(s);
    var e1 := e0 + [Pushes("")];
    var e2 := e1 + [Server(0, Lists(names))];
    FirstPush(s, c2);
    FullListing(s, first, c3);
    FirstIsFound(s, first, c3);
    hide Execute, Do, Child, SequenceName, Parent, A.Alone;
    ExecuteOneMore(s, e0, Pushes(""), Inside(s, map[], [], c2), Inside(s, first, [""], c2));
    ExecuteOneMore(s, e1, Server(0, Lists(names)), Inside(s, first, [""], c2), Inside(s, first, [""], c3));
    ExecuteOneMore(s, e2, Client(0, HandlesMinimum(0)), Inside(s, first, [""], c3), Inside(s, first, [""], Found(s)));
    events := e2 + [Client(0, HandlesMinimum(0))];
  }

  /** Then another one is pushed, and the watch fires although the consumer has its
      element. */
  lemma {:induction false} WatchCanFireLate(s: Setup)
    requires s.Valid()
    ensures exists events, w :: Execute(s, events) == Some(w) && 0 in w.consumers
              && w.consumers[0].watch.Fired? && w.consumers[0].phase.Getting? && HasFound(w.consumers[0])
  {
    var first := map[s.queue.Name(0) := ""];
    var events := ConsumerFinds(s);
    var w := Inside(s, first[s.queue.Name(1) := ""], ["", ""], Found(s).(watch := Fired));
    SecondPush(s);
    QueuePaths(s);
    hide Execute, Do, Child, SequenceName, Parent, A.Alone;
    ExecuteOneMore(s, events, Pushes(""), Inside(s, first, [""], Found(s)), w);
    assert 0 in w.consumers && HasFound(w.consumers[0]);
  }

  lemma QueuePaths(s: Setup)
    requires s.Valid()
    ensures Parent(Child(s.queue.parent, s.queue.prefix)) == s.queue.parent
    ensures Child(s.queue.parent, s.queue.Name(0)) != "" && s.queue.Name(0) != s.queue.Name(1)
    ensures Least([Some(s.queue.Name(0))]) == Some(s.queue.Name(0)) && Least([]) == None
  {
    ChildSplits(s.queue.parent, s.queue.prefix);
    NamesDiffer(s, 0, 1);
    OnlyNameIsLeast(s.queue.Name(0));
  }

  lemma OnlyNameIsLeast(name: string)
    ensures Least([Some(name)]) == Some(name)
  {
    assert [Some(name)][0] == Some(name);
    LeastIsLeast([Some(name)], Least([Some(name)]));
  }

  /** The listing of an empty queue. */
  lemma EmptyListing(s: Setup, c0: Consumer, c1: Consumer, c2: Consumer)
    requires s.Valid() && c0 == Consumer(Fresh(s), Listing(s.queue.parent, false), NoWatch)
    requires c1 == c0.(phase := ZkQueue.Replied([], false)) && c2 == c0.(phase := Listing(s.queue.parent, true))
    ensures Do(s, Inside(s, map[], [], c0), Server(0, Lists([]))) == Some(Inside(s, map[], [], c1))
    ensures Do(s, Inside(s, map[], [], c1), Client(0, HandlesMinimum(0))) == Some(Inside(s, map[], [], c2))
  {
    hide L.Do, Child, SequenceName, Parent, L.NodeAt, Least;
    QueuePaths(s);
    OneConsumer();
  }

  lemma FirstPush(s: Setup, c: Consumer)
    requires s.Valid() && c.watch.NoWatch?
    ensures Do(s, Inside(s, map[], [], c), Pushes("")) == Some(Inside(s, map[s.queue.Name(0) := ""], [""], c))
  {
    hide L.Do, Child, SequenceName;
    OneConsumer();
    var none: map<string, string>, nothing: seq<string> := map[], [];
    assert none[s.queue.Name(0) := ""] == map[s.queue.Name(0) := ""] && nothing + [""] == [""];
    var after := Do(s, Inside(s, map[], [], c), Pushes("")).value;
    assert after.elements == map[s.queue.Name(0) := ""] && after.pushed == [""] && after.consumers == map[0 := c];
  }

  lemma SecondPush(s: Setup)
    requires s.Valid()
    ensures var first := map[s.queue.Name(0) := ""];
      Do(s, Inside(s, first, [""], Found(s)), Pushes("")) ==
      Some(Inside(s, first[s.queue.Name(1) := ""], ["", ""], Found(s).(watch := Fired)))
  {
    hide L.Do, Child, SequenceName;
    OneConsumer();
    assert [""] + [""] == ["", ""];
  }

  /** The watched listing. */
  lemma FullListing(s: Setup, elements: map<string, string>, c3: Consumer)
    requires s.Valid() && elements == map[s.queue.Name(0) := ""]
    requires c3 == Searching(s, true).(phase := ZkQueue.Replied([Some(s.queue.Name(0))], true), watch := Pending)
    ensures Do(s, Inside(s, elements, [""], Searching(s, true)), Server(0, Lists([Some(s.queue.Name(0))]))) ==
            Some(Inside(s, elements, [""], c3))
  {
    hide L.Do, Child, SequenceName, Parent, L.NodeAt, Least;
    assert [Some(s.queue.Name(0))][0] == Some(s.queue.Name(0));
    OneConsumer();
  }

  lemma FirstIsFound(s: Setup, elements: map<string, string>, c3: Consumer)
    requires s.Valid() && c3 == Searching(s, true).(phase := ZkQueue.Replied([Some(s.queue.Name(0))], true),
                                                    watch := Pending)
    ensures Do(s, Inside(s, elements, [""], c3), Client(0, HandlesMinimum(0))) ==
            Some(Inside(s, elements, [""], Found(s)))
  {
    MovesToFound(s, c3);
    hide L.Do, Child, SequenceName, L.NodeAt, ConsumerMove, A.Alone, Found, Searching;
    assert map[0 := c3][0 := Found(s)] == map[0 := Found(s)];
  }

  lemma MovesToFound(s: Setup, c3: Consumer)
    requires s.Valid() && c3 == Searching(s, true).(phase := ZkQueue.Replied([Some(s.queue.Name(0))], true),
                                                    watch := Pending)
    ensures ConsumerMove(c3, HandlesMinimum(0)) == Some(Found(s))
  {
    hide Child, SequenceName, Parent, Least;
    QueuePaths(s);
  }

  lemma OneConsumer()
    ensures forall c: Consumer, d: Consumer :: (map[0 := c])[0 := d] == map[0 := d]
    ensures forall c: Consumer :: AllNotified(map[0 := c]) == map[0 := Notified(c)]
  {
  }

  /** Its listing fails, and it keeps the lock. */
  lemma {:induction false} ConsumerFails(s: Setup) returns (events: seq<Event>)
    requires s.Valid()
    ensures Execute(s, events) ==
            Some(Only(A.Alone(s.lock, Child(s.lock.parent, s.lock.Name(0)), true, L.Leading),
                      Consumer(Released(Fresh(s)), Failed, NoWatch)))
  {
    hide L.Do, Child, SequenceName;
    var lock := A.Alone(s.lock, Child(s.lock.parent, s.lock.Name(0)), true, L.Leading);
    var c := Consumer(Fresh(s), Listing(Parent(Fresh(s).path), false), NoWatch);
    var d := Consumer(Released(Fresh(s)), Failed, NoWatch);
    var e := ConsumerObtains(s);
    assert ConsumerMove(c, ListFails) == Some(d);
    assert map[0 := c][0 := d] == map[0 := d];
    assert Do(s, Only(lock, c), Client(0, ListFails)) == Some(Only(lock, d));
    hide Do;
    ExecuteOneMore(s, e, Client(0, ListFails), Only(lock, c), Only(lock, d));
    events := e + [Client(0, ListFails)];
  }

  /** The lock can be kept by a consumer that has failed. */
  lemma {:induction false} LockCanBeKept(s: Setup)
    requires s.Valid()
    ensures exists events, w :: Execute(s, events) == Some(w) && KeepsLock(w, 0) && w.lock.dead == {}
  {
    var events := ConsumerFails(s);
    hide Execute, Child, SequenceName;
    var w := Only(A.Alone(s.lock, Child(s.lock.parent, s.lock.Name(0)), true, L.Leading),
                  Consumer(Released(Fresh(s)), Failed, NoWatch));
    assert KeepsLock(w, 0) && w.lock.dead == {};
  }

  /** An element can be released twice: the same run, and then the connection is
      lost. */
  lemma {:induction false} ReleaseCanHappenTwice(s: Setup)
    requires s.Valid()
    ensures exists events, w :: Execute(s, events) == Some(w) && ReleasedTwice(w, 0)
  {
    hide Child, SequenceName, Execute;
    var path := Child(s.lock.parent, s.lock.Name(0));
    var before, after := A.Alone(s.lock, path, true, L.Leading), A.Alone(s.lock, path, false, L.Freed);
    var c := Consumer(Released(Fresh(s)), Failed, NoWatch);
    var d := Consumer(Released(Released(Fresh(s))), Failed, NoWatch);
    var e := ConsumerFails(s);
    assert L.Do(s.lock, before, L.Cleans(0)).value.mutexes == after.mutexes;
    OnlyLockStep(s, before, after, c, L.Cleans(0));
    hide Do, L.Do;
    ExecuteOneMore(s, e, LockStep(L.Cleans(0)), Only(before, c), Only(after, d));
    assert ReleasedTwice(Only(after, d), 0);
  }
}
