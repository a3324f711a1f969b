/** Nodes of the lock that nobody answers for any more (rb_zk.c). */
module ZkAbandonment {
  import opened Wrappers
  import opened CStrings
  import opened ZkNames
  import opened ZkLock

  /** Its node is left as it is, whatever happens. */
  predicate HasStopped(phase: Phase) { phase.Stuck? || phase.Unasked? }

  /** x has this node, and will still do something about it, or has asked for its
      deletion, and the server may still learn of that. */
  ghost predicate AnswersFor(pl: Place, x: Mutex, name: string) { Own(pl, x) == Some(name) && !HasStopped(x.phase) }

  /** No contender answers for this node any more. */
  ghost predicate Abandoned(pl: Place, st: World, name: string) {
    name in st.nodes && forall m :: m in st.mutexes ==> !AnswersFor(pl, st.mutexes[m], name)
  }

  /** The steps by which contender m leaves its live node behind: a creation that
      fails for the client because only its reply is lost, a local error when it
      asks for the first listing, a listing that fails, a predecessor that is gone
      or cannot be asked for, an unlock without a connection, a deletion that
      cannot be requested or that the server never gets, and a connection that is lost while the session lives on. */
  ghost predicate GivesUp(pl: Place, st: World, m: nat, e: Event)
    requires m in st.mutexes
  {
    var x := st.mutexes[m];
    match e
    case Client(n, a) =>
      n == m &&
      match a {
        case CreateFails => true
        case HandlesCreated(askRc) => askRc != 0
        case ListFails => true
        case ProbeFails => true
        case Unlocks(connected, adeleteRc) => !connected || adeleteRc != 0
        case _ => false
      }
    case Server(n, a) =>
      n == m &&
      match a {
        case Probes =>
          var name := if x.phase.Probing? then NodeAt(pl, x.phase.path) else None;
          x.phase.Probing? && !(name.Some? && name.value in st.nodes)
        case Misses => true
        case _ => false
      }
    case Cleans(session) => x.session == session && !x.phase.Unlocking? && !x.phase.Unheeded?
    case _ => false
  }

  /** Exactly when a live node is abandoned, over all steps that there are. */
  lemma {:induction false} AbandonedIff(pl: Place, st: World, e: Event, m: nat)
    requires Inv(pl, st) && Do(pl, st, e).Some? && OwnIsLive(pl, st, m) && !HasStopped(st.mutexes[m].phase)
    ensures Abandoned(pl, Do(pl, st, e).value, Own(pl, st.mutexes[m]).value) <==> GivesUp(pl, st, m, e)
  {
    var after, own := Do(pl, st, e).value, Own(pl, st.mutexes[m]).value;
    NobodyLeaves(pl, st, e, m);
    forall n | n in after.mutexes && n != m
      ensures Own(pl, after.mutexes[n]) != Some(own)
    {
      OthersDiffer(pl, st, e, m, n);
    }
    OwnerGivesUp(pl, st, e, m);
    hide Inv, Do, Own, GivesUp;
  }

  /** And exactly when a node is abandoned from the start: when it is created for
      a contender that is gone by then. */
  lemma {:induction false} BornAbandonedIff(pl: Place, st: World, e: Event, name: string)
    requires Inv(pl, st) && Do(pl, st, e).Some? && name !in st.nodes && name in Do(pl, st, e).value.nodes
    ensures e.Server? && e.server.Creates? && e.m in st.mutexes
    ensures Abandoned(pl, Do(pl, st, e).value, name) <==> st.mutexes[e.m].phase.Unheard?
  {
    NewNodeIsCreated(pl, st, e, name);
    var m, x, after := e.m, st.mutexes[e.m], Do(pl, st, e).value;
    SequenceNameHasNoSlash(pl.prefix, st.next);
    CreatorHasNew(pl, x, name, |st.nodes|);
    assert after.mutexes[m] == Established(x, Child(pl.parent, name), |st.nodes|);
    forall n | n in after.mutexes && n != m
      ensures Own(pl, after.mutexes[n]) != Some(name)
    {
      assert Good(pl, st, st.mutexes[n]);
      OwnIsOld(pl, st, st.mutexes[n], name);
    }
    hide Inv, Own, Do;
  }

  lemma NewNodeIsCreated(pl: Place, st: World, e: Event, name: string)
    requires Do(pl, st, e).Some? && name !in st.nodes && name in Do(pl, st, e).value.nodes
    ensures e.Server? && e.server.Creates? && e.m in st.mutexes && st.next < SEQUENCE_LIMIT && name == pl.Name(st.next)
    ensures st.mutexes[e.m].phase.Creating? || st.mutexes[e.m].phase.Unheard?
    ensures Do(pl, st, e).value.mutexes ==
            st.mutexes[e.m := Established(st.mutexes[e.m], Child(pl.parent, name), |st.nodes|)]
  {
    hide NodeAt, Previous;
  }

  lemma OwnIsOld(pl: Place, st: World, x: Mutex, name: string)
    requires Good(pl, st, x) && st.next < SEQUENCE_LIMIT && name == pl.Name(st.next)
    ensures Own(pl, x) != Some(name)
  {
    if Own(pl, x).Some? {
      BeforeIsTotal(Own(pl, x).value, name);
    }
  }

  lemma OthersDiffer(pl: Place, st: World, e: Event, m: nat, n: nat)
    requires Inv(pl, st) && Do(pl, st, e).Some? && OwnIsLive(pl, st, m) && n in Do(pl, st, e).value.mutexes && n != m
    ensures Own(pl, Do(pl, st, e).value.mutexes[n]) != Own(pl, st.mutexes[m])
  {
    OwnComesFromCreate(pl, st, e, n);
    NamesAreOld(pl, st, Own(pl, st.mutexes[m]).value);
    hide Do, Own, NodesInv, Good, OldName;
  }

  lemma OwnerGivesUp(pl: Place, st: World, e: Event, m: nat)
    requires Inv(pl, st) && Do(pl, st, e).Some? && OwnIsLive(pl, st, m) && !HasStopped(st.mutexes[m].phase)
    requires m in Do(pl, st, e).value.mutexes
    ensures var after, own := Do(pl, st, e).value, Own(pl, st.mutexes[m]).value;
      own in after.nodes && !AnswersFor(pl, after.mutexes[m], own) <==> GivesUp(pl, st, m, e)
  {
    assert Good(pl, st, st.mutexes[m]);
    NamesAreOld(pl, st, Own(pl, st.mutexes[m]).value);
    hide Inv;
    if e.Client? {
      hide ClientStep;
      ClientMovesOne(st, e.m, e.client, m);
      ClientGivesUp(pl, st, e.client, e.m, m);
    } else if e.Server? {
      hide ServerStep;
      ServerGivesUp(pl, st, e.server, e.m, m);
    } else {
      OthersGiveUp(pl, st, e, m);
    }
  }

  lemma ClientGivesUp(pl: Place, st: World, a: ClientAction, n: nat, m: nat)
    requires n in st.mutexes && ClientStep(st, n, a).Some? && OwnIsLive(pl, st, m) && !HasStopped(st.mutexes[m].phase)
    requires Good(pl, st, st.mutexes[m]) && m in ClientStep(st, n, a).value.mutexes
    requires m != n ==> ClientStep(st, n, a).value.mutexes[m] == st.mutexes[m]
    ensures var after, own := ClientStep(st, n, a).value, Own(pl, st.mutexes[m]).value;
      after.nodes == st.nodes && (!AnswersFor(pl, after.mutexes[m], own) <==> GivesUp(pl, st, m, Client(n, a)))
  {
    hide OldName, Covers, Smaller, NodeAt, Lives, Bounded, Previous;
  }

  lemma ServerGivesUp(pl: Place, st: World, a: ServerAction, n: nat, m: nat)
    requires n in st.mutexes && ServerStep(pl, st, n, a).Some?
    requires OwnIsLive(pl, st, m) && !HasStopped(st.mutexes[m].phase)
    requires Good(pl, st, st.mutexes[m]) && m in ServerStep(pl, st, n, a).value.mutexes
    requires st.next < SEQUENCE_LIMIT ==> Own(pl, st.mutexes[m]).value != pl.Name(st.next)
    ensures var after, own := ServerStep(pl, st, n, a).value, Own(pl, st.mutexes[m]).value;
      own in after.nodes && !AnswersFor(pl, after.mutexes[m], own) <==> GivesUp(pl, st, m, Server(n, a))
  {
    hide OldName, Covers, Smaller, NodeAt, Lives, Bounded, Previous;
  }

  lemma OthersGiveUp(pl: Place, st: World, e: Event, m: nat)
    requires Do(pl, st, e).Some? && OwnIsLive(pl, st, m) && !HasStopped(st.mutexes[m].phase)
    requires Good(pl, st, st.mutexes[m])
    requires !e.Client? && !e.Server? && m in Do(pl, st, e).value.mutexes
    ensures var after, own := Do(pl, st, e).value, Own(pl, st.mutexes[m]).value;
      own in after.nodes && !AnswersFor(pl, after.mutexes[m], own) <==> GivesUp(pl, st, m, e)
  {
    hide OldName, Covers, Smaller, NodeAt, Bounded, Previous;
  }

  lemma {:induction false} AbandonedStays(pl: Place, st: World, e: Event, name: string)
    requires Inv(pl, st) && Do(pl, st, e).Some? && Abandoned(pl, st, name) && e != Expires(st.nodes[name])
    ensures Abandoned(pl, Do(pl, st, e).value, name) && Do(pl, st, e).value.nodes[name] == st.nodes[name]
  {
    var after := Do(pl, st, e).value;
    NameStays(pl, st, e, name);
    forall m | m in after.mutexes
      ensures !AnswersFor(pl, after.mutexes[m], name)
    {
      hide Inv, Good;
      OwnComesFromCreate(pl, st, e, m);
      if m in st.mutexes && HasStopped(st.mutexes[m].phase) {
        StuckStays(pl, st, e, m);
      }
      hide Do, Own;
    }
  }

  /** Exactly when a contender stops without being told of it: when a listing fails,
      or when the deletion of its node cannot be requested; and it stays like that
      until its connection is lost. */
  lemma {:induction false} StopsIff(pl: Place, st: World, e: Event, m: nat)
    requires Do(pl, st, e).Some? && m in st.mutexes && m in Do(pl, st, e).value.mutexes
    ensures var x, y := st.mutexes[m], Do(pl, st, e).value.mutexes[m];
      && (y.phase.Stuck? <==> e == Client(m, ListFails) || (x.phase.Stuck? && e != Cleans(x.session)))
      && (y.phase.Unasked? <==>
            || (e.Client? && e.m == m && e.client.Unlocks? && e.client.connected && e.client.adeleteRc != 0)
            || (x.phase.Unasked? && e != Cleans(x.session)))
  {
    hide NodeAt, Previous, ServerStep, ClientStep;
    if e.Client? {
      ClientMovesOne(st, e.m, e.client, m);
      ClientStops(st, e.m, e.client, m);
    } else if e.Server? {
      ServerStopsNobody(pl, st, e.m, e.server, m);
    }
  }

  lemma ClientStops(st: World, n: nat, a: ClientAction, m: nat)
    requires n in st.mutexes && m in st.mutexes && ClientStep(st, n, a).Some? && m in ClientStep(st, n, a).value.mutexes
    requires m != n ==> ClientStep(st, n, a).value.mutexes[m] == st.mutexes[m]
    ensures var x, y := st.mutexes[m], ClientStep(st, n, a).value.mutexes[m];
      && (y.phase.Stuck? <==> (m == n && a.ListFails?) || x.phase.Stuck?)
      && (y.phase.Unasked? <==> (m == n && a.Unlocks? && a.connected && a.adeleteRc != 0) || x.phase.Unasked?)
  {
    hide Previous;
  }

  lemma ServerStopsNobody(pl: Place, st: World, n: nat, a: ServerAction, m: nat)
    requires n in st.mutexes && m in st.mutexes && ServerStep(pl, st, n, a).Some?
    requires m in ServerStep(pl, st, n, a).value.mutexes
    ensures var x, y := st.mutexes[m], ServerStep(pl, st, n, a).value.mutexes[m];
      (y.phase.Stuck? <==> x.phase.Stuck?) && (y.phase.Unasked? <==> x.phase.Unasked?)
  {
    hide NodeAt;
    if a.Deletes? {
      DeletionStopsNobody(pl, st, n, m);
    }
  }

  lemma DeletionStopsNobody(pl: Place, st: World, n: nat, m: nat)
    requires n in st.mutexes && m in st.mutexes && ServerStep(pl, st, n, Deletes).Some?
    requires m in ServerStep(pl, st, n, Deletes).value.mutexes
    ensures var x, y := st.mutexes[m], ServerStep(pl, st, n, Deletes).value.mutexes[m];
      (y.phase.Stuck? <==> x.phase.Stuck?) && (y.phase.Unasked? <==> x.phase.Unasked?)
  {
    hide NodeAt;
  }

  lemma StuckStays(pl: Place, st: World, e: Event, m: nat)
    requires Do(pl, st, e).Some? && m in st.mutexes && m in Do(pl, st, e).value.mutexes
    requires HasStopped(st.mutexes[m].phase)
    ensures HasStopped(Do(pl, st, e).value.mutexes[m].phase) || Do(pl, st, e).value.mutexes[m].phase.Freed?
  {
    hide NodeAt, Previous;
  }

  lemma NameStays(pl: Place, st: World, e: Event, name: string)
    requires Inv(pl, st) && Do(pl, st, e).Some? && Abandoned(pl, st, name) && e != Expires(st.nodes[name])
    ensures name in Do(pl, st, e).value.nodes && Do(pl, st, e).value.nodes[name] == st.nodes[name]
    ensures st.next < SEQUENCE_LIMIT ==> name != pl.Name(st.next)
  {
    hide NodeAt, Previous, Distinct;
    NamesAreOld(pl, st, name);
    if e.Server? && e.server.Deletes? {
      assert Good(pl, st, st.mutexes[e.m]);
      DeletesItsOwn(pl, st, st.mutexes[e.m]);
    }
    hide Inv, Good, Own;
  }

  lemma NamesAreOld(pl: Place, st: World, name: string)
    requires NodesInv(pl, st) && name in st.nodes
    ensures st.next < SEQUENCE_LIMIT ==> name != pl.Name(st.next)
  {
    if st.next < SEQUENCE_LIMIT {
      BeforeIsTotal(name, pl.Name(st.next));
    }
  }

  /** The node of a contender is the one that was created for it. */
  lemma {:induction false} OwnComesFromCreate(pl: Place, st: World, e: Event, m: nat)
    requires Inv(pl, st) && Do(pl, st, e).Some? && m in Do(pl, st, e).value.mutexes
    ensures OwnStems(pl, st, Do(pl, st, e).value.mutexes[m], m)
  {
    if e.Client? {
      hide ClientStep;
      assert Good(pl, st, st.mutexes[e.m]);
      hide Inv, Good;
      ClientMoves(pl, st, e.m, e.client);
      ClientMovesOne(st, e.m, e.client, m);
    } else if e.Server? {
      hide Inv, Good, ServerStep;
      ServerOwns(pl, st, e.m, e.server, m);
    } else {
      assert m in st.mutexes ==> Good(pl, st, st.mutexes[m]);
      hide Inv;
      OthersOwn(pl, st, e, m);
    }
  }

  lemma OthersOwn(pl: Place, st: World, e: Event, m: nat)
    requires Do(pl, st, e).Some? && m in Do(pl, st, e).value.mutexes && !e.Server? && !e.Client?
    requires m in st.mutexes ==> Good(pl, st, st.mutexes[m])
    ensures OwnStems(pl, st, Do(pl, st, e).value.mutexes[m], m)
  {
    hide NodeAt, Good, PhaseAtEnd;
    if e.Cleans? && m in st.mutexes {
      CleanedIsGood(pl, st, st, st.mutexes[m], e.session);
    }
  }

  ghost predicate OwnStems(pl: Place, st: World, y: Mutex, m: nat) {
    || Own(pl, y) == None
    || (m in st.mutexes && Own(pl, y) == Own(pl, st.mutexes[m]))
    || (st.next < SEQUENCE_LIMIT && Own(pl, y) == Some(pl.Name(st.next)))
  }

  lemma ServerOwns(pl: Place, st: World, n: nat, a: ServerAction, m: nat)
    requires Inv(pl, st) && n in st.mutexes && ServerStep(pl, st, n, a).Some?
    requires m in ServerStep(pl, st, n, a).value.mutexes
    ensures OwnStems(pl, st, ServerStep(pl, st, n, a).value.mutexes[m], m)
  {
    assert pl.Valid() && NodesInv(pl, st) && Good(pl, st, st.mutexes[n]);
    hide Inv, Good, NodesInv;
    if a.Creates? {
      CreationOwns(pl, st, n, m);
    } else if a.Deletes? {
      DeletionOwns(pl, st, n, m);
    } else {
      ReplyIsGood(pl, st, n, a);
      hide Own, NodeAt;
    }
  }

  lemma CreationOwns(pl: Place, st: World, n: nat, m: nat)
    requires pl.Valid() && n in st.mutexes && ServerStep(pl, st, n, Creates).Some?
    requires m in ServerStep(pl, st, n, Creates).value.mutexes
    ensures OwnStems(pl, st, ServerStep(pl, st, n, Creates).value.mutexes[m], m)
  {
    hide Own, Established, NodeAt;
    SequenceNameHasNoSlash(pl.prefix, st.next);
    CreatorHasNew(pl, st.mutexes[n], pl.Name(st.next), |st.nodes|);
  }

  lemma DeletionOwns(pl: Place, st: World, n: nat, m: nat)
    requires n in st.mutexes && ServerStep(pl, st, n, Deletes).Some?
    requires m in ServerStep(pl, st, n, Deletes).value.mutexes
    requires Good(pl, st, st.mutexes[n])
    ensures OwnStems(pl, st, ServerStep(pl, st, n, Deletes).value.mutexes[m], m)
  {
    hide NodeAt, OldName, Good;
  }

  /** The node of x is below this one, or it is this one, and x could not request
      its deletion. */
  ghost predicate IsAhead(pl: Place, x: Mutex, name: string) {
    Own(pl, x).Some? && (Before(Own(pl, x).value, name) || (Own(pl, x).value == name && x.phase.Unasked?))
  }

  /** An abandoned node stays until its session expires, whatever else happens,
      and until then nobody whose node is above it obtains the lock. */
  lemma {:induction false} AbandonedNodeBlocks(pl: Place, events: seq<Event>, more: seq<Event>, name: string,
                                               st: World, after: World)
    requires pl.Valid() && Execute(pl, events) == Some(st) && Execute(pl, events + more) == Some(after)
    requires Abandoned(pl, st, name) && Expires(st.nodes[name]) !in more
    ensures Abandoned(pl, after, name) && after.nodes[name] == st.nodes[name]
    ensures forall m :: Obtained(after, m) && OwnIsLive(pl, after, m) ==> IsAhead(pl, after.mutexes[m], name)
    decreases |more|
  {
    var all := events + more;
    if more == [] {
      assert all == events;
    } else {
      var init := more[..|more| - 1];
      assert all[..|all| - 1] == events + init;
      var before := Execute(pl, events + init).value;
      AbandonedNodeBlocks(pl, events, init, name, st, before);
      ExecutionKeepsInvariant(pl, events + init);
      hide Do, Abandoned, Inv;
      AbandonedStays(pl, before, all[|all| - 1], name);
    }
    AbandonedIsAhead(pl, all, name, after);
  }

  lemma LeaderIsNotStuck(pl: Place, st: World, m: nat)
    requires Inv(pl, st) && Obtained(st, m)
    ensures !st.mutexes[m].phase.Stuck?
  {
    hide OldName, NodeAt;
    assert Good(pl, st, st.mutexes[m]);
  }

  lemma {:induction false} AbandonedIsAhead(pl: Place, events: seq<Event>, name: string, st: World)
    requires pl.Valid() && Execute(pl, events) == Some(st) && Abandoned(pl, st, name)
    ensures forall m :: Obtained(st, m) && OwnIsLive(pl, st, m) ==> IsAhead(pl, st.mutexes[m], name)
  {
    forall m | Obtained(st, m) && OwnIsLive(pl, st, m)
      ensures IsAhead(pl, st.mutexes[m], name)
    {
      HolderIsFirst(pl, events, st, m);
      ExecutionKeepsInvariant(pl, events);
      LeaderIsNotStuck(pl, st, m);
    }
  }

  // ---------- runs ----------

  lemma {:induction false} ExecuteOneMore(pl: Place, events: seq<Event>, e: Event, st: World, after: World)
    requires Execute(pl, events) == Some(st) && Do(pl, st, e) == Some(after)
    ensures Execute(pl, events + [e]) == Some(after)
  {
    assert (events + [e])[..|events|] == events;
    hide Do;
  }

  /** One contender, whose node is the only one. */
  function Alone(pl: Place, path: string, leader: bool, phase: Phase): World {
    World(map[pl.Name(0) := 0], 1, {}, map[0 := Mutex(0, Fields(path, leader), phase, 0, 0)])
  }

  /** A first contender obtains the lock. */
  lemma {:induction false} FirstLeads(pl: Place) returns (events: seq<Event>)
    requires pl.Valid()
    ensures Execute(pl, events) == Some(Alone(pl, Child(pl.parent, pl.Name(0)), true, Leading))
  {
    var names, prefix, path := [Some(pl.Name(0))], Child(pl.parent, pl.prefix), Child(pl.parent, pl.Name(0));
    var s0 := World(map[], 0, {}, map[0 := Mutex(0, Fields(prefix, false), Creating, 0, 0)]);
    var s1 := Alone(pl, prefix, false, Replied(path));
    var s2 := Alone(pl, path, false, Asking(pl.parent));
    var s3 := Alone(pl, path, false, Answered(names));
    var s4 := Alone(pl, path, true, Leading);
    var e0 := [Locks(0, 0)];
    var e1 := e0 + [Server(0, Creates)];
    var e2 := e1 + [Client(0, HandlesCreated(0))];
    var e3 := e2 + [Server(0, Lists(names))];
    LoneCreation(pl);
    LoneListing(pl);
    LoneDecision(pl);
    hide Do;
    assert [] + e0 == e0;
    ExecuteOneMore(pl, [], Locks(0, 0), START, s0);
    ExecuteOneMore(pl, e0, Server(0, Creates), s0, s1);
    ExecuteOneMore(pl, e1, Client(0, HandlesCreated(0)), s1, s2);
    ExecuteOneMore(pl, e2, Server(0, Lists(names)), s2, s3);
    ExecuteOneMore(pl, e3, Client(0, HandlesChildren), s3, s4);
    events := e3 + [Client(0, HandlesChildren)];
  }

  /** The lock can be obtained. */
  lemma {:induction false} LockCanBeObtained(pl: Place)
    requires pl.Valid()
    ensures exists events, st :: Execute(pl, events) == Some(st) && Obtained(st, 0) && OwnIsLive(pl, st, 0)
  {
    var events := FirstLeads(pl);
    LonePath(pl);
    var st := Alone(pl, Child(pl.parent, pl.Name(0)), true, Leading);
    assert Obtained(st, 0) && OwnIsLive(pl, st, 0);
  }

  lemma {:induction false} LoneCreation(pl: Place)
    ensures var prefix := Child(pl.parent, pl.prefix);
      var s0 := World(map[], 0, {}, map[0 := Mutex(0, Fields(prefix, false), Creating, 0, 0)]);
      && Do(pl, START, Locks(0, 0)) == Some(s0)
      && Do(pl, s0, Server(0, Creates)) == Some(Alone(pl, prefix, false, Replied(Child(pl.parent, pl.Name(0)))))
  {
    hide Child, SequenceName;
    var prefix := Child(pl.parent, pl.prefix);
    var s0 := World(map[], 0, {}, map[0 := Mutex(0, Fields(prefix, false), Creating, 0, 0)]);
    var s1 := Do(pl, s0, Server(0, Creates)).value;
    assert s1.nodes == map[pl.Name(0) := 0];
    assert s1.mutexes == Alone(pl, prefix, false, Replied(Child(pl.parent, pl.Name(0)))).mutexes;
  }

  lemma {:induction false} LonePath(pl: Place)
    requires pl.Valid()
    ensures var path := Child(pl.parent, pl.Name(0));
      && Parent(path) == pl.parent && NodeAt(pl, path) == Some(pl.Name(0)) && Previous([Some(pl.Name(0))], path) == None
  {
    SequenceNameHasNoSlash(pl.prefix, 0);
    ChildSplits(pl.parent, pl.Name(0));
    OnlyNameLeads(pl.Name(0));
  }

  lemma {:induction false} LoneListing(pl: Place)
    requires pl.Valid()
    ensures var prefix, path := Child(pl.parent, pl.prefix), Child(pl.parent, pl.Name(0));
      && Do(pl, Alone(pl, prefix, false, Replied(path)), Client(0, HandlesCreated(0)))
         == Some(Alone(pl, path, false, Asking(pl.parent)))
      && Do(pl, Alone(pl, path, false, Asking(pl.parent)), Server(0, Lists([Some(pl.Name(0))])))
         == Some(Alone(pl, path, false, Answered([Some(pl.Name(0))])))
  {
    hide Child, SequenceName, Previous, Parent, NodeAt;
    LonePath(pl);
    assert forall u: Mutex, v: Mutex :: (map[0 := u])[0 := v] == map[0 := v];
  }

  lemma {:induction false} LoneDecision(pl: Place)
    requires pl.Valid()
    ensures var names, path := [Some(pl.Name(0))], Child(pl.parent, pl.Name(0));
      Do(pl, Alone(pl, path, false, Answered(names)), Client(0, HandlesChildren))
      == Some(Alone(pl, path, true, Leading))
  {
    hide Child, SequenceName, Previous, Parent, NodeAt;
    LonePath(pl);
    assert forall u: Mutex, v: Mutex :: (map[0 := u])[0 := v] == map[0 := v];
  }

  lemma {:induction false} OnlyNameLeads(name: string)
    ensures Below([Some(name)], name) == None
  {
    BeforeIsTotal(name, name);
    BelowIsGreatest([Some(name)], name, None);
  }

  // ---------- a run that abandons a node ----------

  /** Two contenders of two sessions; x is the second one. */
  function Pair(pl: Place, both: bool, first: Phase, x: Mutex): World {
    World(if both then map[pl.Name(0) := 0, pl.Name(1) := 1] else map[pl.Name(1) := 1], 2, {},
          map[0 := Mutex(0, Fields(Child(pl.parent, pl.Name(0)), true), first, 0, 0), 1 := x])
  }

  function Second(path: string, phase: Phase): Mutex { Mutex(1, Fields(path, false), phase, 1, 0) }

  lemma {:induction false} PairPaths(pl: Place)
    requires pl.Valid()
    ensures var a, b := pl.Name(0), pl.Name(1);
      && a != b && Before(a, b)
      && Parent(Child(pl.parent, a)) == pl.parent && NodeAt(pl, Child(pl.parent, a)) == Some(a)
      && Parent(Child(pl.parent, b)) == pl.parent && NodeAt(pl, Child(pl.parent, b)) == Some(b)
      && Previous([Some(a), Some(b)], Child(pl.parent, b)) == Some(a)
  {
    var a, b := pl.Name(0), pl.Name(1);
    SequenceNameHasNoSlash(pl.prefix, 0);
    SequenceNameHasNoSlash(pl.prefix, 1);
    SequenceOrder(pl.prefix, 0, 1);
    ChildSplits(pl.parent, a);
    ChildSplits(pl.parent, b);
    FirstOfTwo(a, b);
  }

  lemma {:induction false} FirstOfTwo(a: string, b: string)
    requires Before(a, b)
    ensures a != b && Below([Some(a), Some(b)], b) == Some(a)
  {
    var names := [Some(a), Some(b)];
    BeforeIsTotal(a, b);
    BeforeIsTotal(a, a);
    BeforeIsTotal(b, b);
    assert names[0] == Some(a);
    assert forall name :: Listed(names, name) ==> name == a || name == b;
    BelowIsGreatest(names, b, Some(a));
  }

  /** The second contender comes, and lists while the first one leads. */
  lemma {:induction false} SecondAsks(pl: Place)
    requires pl.Valid()
    ensures var a, b := pl.Name(0), pl.Name(1);
      var prefix, path := Child(pl.parent, pl.prefix), Child(pl.parent, b);
      var s0 := Alone(pl, Child(pl.parent, a), true, Leading);
      var s1 := Set(s0, 1, Mutex(1, Fields(prefix, false), Creating, 0, 0));
      && Do(pl, s0, Locks(1, 1)) == Some(s1)
      && Do(pl, s1, Server(1, Creates)) == Some(Pair(pl, true, Leading, Second(prefix, Replied(path))))
  {
    hide Child, SequenceName, Parent, NodeAt, Previous;
    PairPaths(pl);
    var a, b := pl.Name(0), pl.Name(1);
    var s1 := Set(Alone(pl, Child(pl.parent, a), true, Leading), 1,
                  Mutex(1, Fields(Child(pl.parent, pl.prefix), false), Creating, 0, 0));
    var s2 := Do(pl, s1, Server(1, Creates)).value;
    var p := Pair(pl, true, Leading, Second(Child(pl.parent, pl.prefix), Replied(Child(pl.parent, b))));
    assert s1.nodes == map[a := 0] && |s1.nodes| == 1;
    assert s2.nodes == p.nodes && s2.mutexes == p.mutexes;
  }

  lemma {:induction false} SecondProbes(pl: Place)
    requires pl.Valid()
    ensures var a, b := pl.Name(0), pl.Name(1);
      var prefix, path, names := Child(pl.parent, pl.prefix), Child(pl.parent, b), [Some(a), Some(b)];
      && Do(pl, Pair(pl, true, Leading, Second(prefix, Replied(path))), Client(1, HandlesCreated(0)))
         == Some(Pair(pl, true, Leading, Second(path, Asking(pl.parent))))
      && Do(pl, Pair(pl, true, Leading, Second(path, Asking(pl.parent))), Server(1, Lists(names)))
         == Some(Pair(pl, true, Leading, Second(path, Answered(names))))
      && Do(pl, Pair(pl, true, Leading, Second(path, Answered(names))), Client(1, HandlesChildren))
         == Some(Pair(pl, true, Leading, Second(path, Probing(Child(pl.parent, a)))))
  {
    hide Child, SequenceName, Parent, NodeAt, Previous;
    PairPaths(pl);
    assert forall f: Mutex, x: Mutex, y: Mutex :: map[0 := f, 1 := x][1 := y] == map[0 := f, 1 := y];
  }

  /** The first one unlocks, and only then the question of the second arrives. */
  lemma {:induction false} FirstUnlocks(pl: Place)
    requires pl.Valid()
    ensures var a, b := pl.Name(0), pl.Name(1);
      var x := Second(Child(pl.parent, b), Probing(Child(pl.parent, a)));
      && Do(pl, Pair(pl, true, Leading, x), Client(0, Unlocks(true, 0)))
         == Some(Pair(pl, true, Unlocking(Child(pl.parent, a)), x))
      && Do(pl, Pair(pl, true, Unlocking(Child(pl.parent, a)), x), Server(0, Deletes))
         == Some(Pair(pl, false, Deleted, x))
  {
    hide Child, SequenceName, Parent, NodeAt, Previous;
    PairPaths(pl);
    var a := pl.Name(0);
    var x := Second(Child(pl.parent, pl.Name(1)), Probing(Child(pl.parent, a)));
    assert forall f: Mutex, g: Mutex, y: Mutex :: map[0 := f, 1 := y][0 := g] == map[0 := g, 1 := y];
    var before := Pair(pl, true, Unlocking(Child(pl.parent, a)), x);
    assert before.nodes - {a} == Pair(pl, false, Deleted, x).nodes;
    assert Fired(pl, before.mutexes, {a}) == before.mutexes;
  }

  lemma {:induction false} SecondIsLate(pl: Place)
    requires pl.Valid()
    ensures var x := Second(Child(pl.parent, pl.Name(1)), Probing(Child(pl.parent, pl.Name(0))));
      Do(pl, Pair(pl, false, Deleted, x), Server(1, Probes)) == Some(Pair(pl, false, Deleted, x.(phase := Freed)))
  {
    hide Child, SequenceName, Parent, NodeAt, Previous;
    PairPaths(pl);
    assert forall f: Mutex, y: Mutex, z: Mutex :: map[0 := f, 1 := y][1 := z] == map[0 := f, 1 := z];
  }

  /** The second contender is about to ask for the node of the first, which leads. */
  lemma {:induction false} SecondFollows(pl: Place) returns (events: seq<Event>)
    requires pl.Valid()
    ensures Execute(pl, events) ==
            Some(Pair(pl, true, Leading, Second(Child(pl.parent, pl.Name(1)), Probing(Child(pl.parent, pl.Name(0))))))
  {
    hide Do, Execute, Pair, Alone, Set, Child, SequenceName;
    var a, b := pl.Name(0), pl.Name(1);
    var prefix, path, names := Child(pl.parent, pl.prefix), Child(pl.parent, b), [Some(a), Some(b)];
    var s0 := Alone(pl, Child(pl.parent, a), true, Leading);
    var s1 := Set(s0, 1, Mutex(1, Fields(prefix, false), Creating, 0, 0));
    var s2 := Pair(pl, true, Leading, Second(prefix, Replied(path)));
    var s3 := Pair(pl, true, Leading, Second(path, Asking(pl.parent)));
    var s4 := Pair(pl, true, Leading, Second(path, Answered(names)));
    var e0 := FirstLeads(pl);
    var e1 := e0 + [Locks(1, 1)];
    var e2 := e1 + [Server(1, Creates)];
    var e3 := e2 + [Client(1, HandlesCreated(0))];
    var e4 := e3 + [Server(1, Lists(names))];
    SecondAsks(pl);
    SecondProbes(pl);
    ExecuteOneMore(pl, e0, Locks(1, 1), s0, s1);
    ExecuteOneMore(pl, e1, Server(1, Creates), s1, s2);
    ExecuteOneMore(pl, e2, Client(1, HandlesCreated(0)), s2, s3);
    ExecuteOneMore(pl, e3, Server(1, Lists(names)), s3, s4);
    ExecuteOneMore(pl, e4, Client(1, HandlesChildren), s4,
                   Pair(pl, true, Leading, Second(path, Probing(Child(pl.parent, a)))));
    events := e4 + [Client(1, HandlesChildren)];
  }

  /** A node can be abandoned without any failure: a leads, b lists, a unlocks and
      its node is deleted, and only then b asks for it. */
  lemma {:induction false} NodeCanBeAbandoned(pl: Place)
    requires pl.Valid()
    ensures exists events, st :: Execute(pl, events) == Some(st) && Abandoned(pl, st, pl.Name(1)) && st.dead == {}
  {
    hide Do, Abandoned, Execute, Pair, Child, SequenceName;
    var path, watched := Child(pl.parent, pl.Name(1)), Child(pl.parent, pl.Name(0));
    var x := Second(path, Probing(watched));
    var s0, s1 := Pair(pl, true, Leading, x), Pair(pl, true, Unlocking(watched), x);
    var s2, s3 := Pair(pl, false, Deleted, x), Pair(pl, false, Deleted, x.(phase := Freed));
    var e0 := SecondFollows(pl);
    var e1 := e0 + [Client(0, Unlocks(true, 0))];
    var e2 := e1 + [Server(0, Deletes)];
    FirstUnlocks(pl);
    SecondIsLate(pl);
    LastIsAbandoned(pl);
    ExecuteOneMore(pl, e0, Client(0, Unlocks(true, 0)), s0, s1);
    ExecuteOneMore(pl, e1, Server(0, Deletes), s1, s2);
    ExecuteOneMore(pl, e2, Server(1, Probes), s2, s3);
  }

  lemma {:induction false} LastIsAbandoned(pl: Place)
    requires pl.Valid()
    ensures var x := Second(Child(pl.parent, pl.Name(1)), Probing(Child(pl.parent, pl.Name(0))));
      var last := Pair(pl, false, Deleted, x.(phase := Freed));
      Abandoned(pl, last, pl.Name(1)) && last.dead == {}
  {
    hide Child, SequenceName, Parent, NodeAt;
    PairPaths(pl);
  }

  /** A node can also be abandoned by its very creation: its reply is lost. */
  lemma {:induction false} LostReplyAbandons(pl: Place)
    requires pl.Valid()
    ensures exists events, st :: Execute(pl, events) == Some(st) && Abandoned(pl, st, pl.Name(0)) && st.dead == {}
  {
    var prefix, path := Child(pl.parent, pl.prefix), Child(pl.parent, pl.Name(0));
    var s0 := World(map[], 0, {}, map[0 := Mutex(0, Fields(prefix, false), Creating, 0, 0)]);
    var s1, s2 := Alone(pl, prefix, false, Replied(path)), Alone(pl, prefix, false, Freed);
    var e0 := [Locks(0, 0)];
    var e1 := e0 + [Server(0, Creates)];
    LoneCreation(pl);
    LoneFailure(pl);
    hide Do;
    assert [] + e0 == e0;
    ExecuteOneMore(pl, [], Locks(0, 0), START, s0);
    ExecuteOneMore(pl, e0, Server(0, Creates), s0, s1);
    ExecuteOneMore(pl, e1, Client(0, CreateFails), s1, s2);
    assert Abandoned(pl, s2, pl.Name(0));
  }

  lemma {:induction false} LoneFailure(pl: Place)
    ensures var prefix, path := Child(pl.parent, pl.prefix), Child(pl.parent, pl.Name(0));
      Do(pl, Alone(pl, prefix, false, Replied(path)), Client(0, CreateFails)) == Some(Alone(pl, prefix, false, Freed))
  {
    hide Child, SequenceName;
    assert forall u: Mutex, v: Mutex :: (map[0 := u])[0 := v] == map[0 := v];
  }
}
