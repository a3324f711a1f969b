/** The lock (rb_zk.c): every contender creates an ephemeral sequential node, and
    leads when no node below its own is left; otherwise it watches the closest
    one below. Requests, replies and watch events of all clients interleave
    freely, replies may be old when they are handled, requests may fail, and
    sessions may expire at any moment. */
module ZkLock {
  import opened Wrappers
  import opened CStrings
  import opened ZkNames

  // ---------- what a contender does ----------

  /** The fields of struct rb_zk_mutex that its callbacks read and write. */
  datatype Fields = Fields(path: string, leader: bool)

  /** What a callback ends in: a request, the end of the mutex, or nothing. */
  datatype Outcome =
    | Create(path: string)
    | GetChildren(path: string)
    | Exists(path: string)
    | Watch(path: string)
    | Delete(path: string)
    | Lead
    | Nothing
    | Gone

  /** create_mutex_node_complete: take over the path of the node, and list. */
  function OnCreated(x: Fields, rc: int, node: Option<string>, askRc: int): (Fields, Outcome) {
    if rc != 0 || node.None? then (x, Gone)
    else (x.(path := node.value), if askRc == 0 then GetChildren(Parent(node.value)) else Gone)
  }

  /** leader_get_children_complete, up to its question about the predecessor. */
  function OnChildren(x: Fields, rc: int, names: Names): (Fields, Outcome) {
    if rc != 0 then (x, Nothing)
    else
      match Previous(names, x.path)
      case None => (x.(leader := true), Lead)
      case Some(b) => (x, Exists(Child(Parent(x.path), b)))
  }

  /** The rest of it: the watch is set only if the predecessor is still there. */
  function OnExists(x: Fields, path: string, rc: int): (Fields, Outcome) {
    (x, if rc == 0 then Watch(path) else Gone)
  }

  /** previous_leader_watcher: list the parent of the node that was watched. */
  function OnEvent(x: Fields, path: string): (Fields, Outcome) { (x, GetChildren(Parent(path))) }

  /** rb_zk_mutex_unlock: without a connection the node is taken to be gone; when
      its deletion cannot even be requested, nothing happens any more. */
  function OnUnlock(x: Fields, connected: bool, adeleteRc: int): (Fields, Outcome) {
    (x, if !connected then Gone else if adeleteRc != 0 then Nothing else Delete(x.path))
  }

  /** zk_watcher_clean_mutex, for one mutex. */
  function OnClean(x: Fields): (Fields, Outcome) { (x.(leader := false), Gone) }

  class RbZkMutex {
    var path: string
    var iAmLeader: bool

    ghost function State(): Fields
      reads this
    {
      Fields(path, iAmLeader)
    }

    /** rb_zk_mutex_create_entry */
    constructor (leaderPath: string)
      ensures State() == Fields(leaderPath, false)
    {
      path, iAmLeader := leaderPath, false;
    }

    method CreateMutexNodeComplete(rc: int, leaderNode: Option<string>, askRc: int) returns (r: Outcome)
      modifies this
      ensures (State(), r) == OnCreated(old(State()), rc, leaderNode, askRc)
    {
      if rc != 0 {
        return Gone;
      }
      if leaderNode.None? {
        return Gone;
      }
      path := leaderNode.value;
      if askRc != 0 {
        return Gone;
      }
      r := GetChildren(Parent(path));
    }

    method LeaderGetChildrenComplete(rc: int, strings: Names) returns (r: Outcome)
      modifies this
      ensures (State(), r) == OnChildren(old(State()), rc, strings)
    {
      if rc != 0 {
        return Nothing;
      }
      var befStr := LeaderPreviousString(strings, path);
      if befStr.None? {
        iAmLeader := true;
        r := Lead;
      } else {
        r := Exists(Child(Parent(path), befStr.value));
      }
    }

    /** The rest of it, once zoo_wexists has answered. */
    method WatchPrevious(prevNodePath: string, wgetRc: int) returns (r: Outcome)
      ensures (State(), r) == OnExists(State(), prevNodePath, wgetRc)
    {
      r := Watch(prevNodePath);
      if wgetRc != 0 {
        r := Gone;
      }
    }

    method PreviousLeaderWatcher(watched: string) returns (r: Outcome)
      ensures (State(), r) == OnEvent(State(), watched)
    {
      r := GetChildren(Parent(watched));
    }

    /** What zk_watcher_clean_mutex does to each mutex of its list. */
    method Clean() returns (r: Outcome)
      modifies this
      ensures (State(), r) == OnClean(old(State()))
    {
      iAmLeader := false;
      r := Gone;
    }

    method Unlock(connected: bool, adeleteRc: int) returns (r: Outcome)
      ensures (State(), r) == OnUnlock(State(), connected, adeleteRc)
    {
      if connected {
        r := Delete(path);
        if adeleteRc != 0 {
          r := Nothing;
        }
      } else {
        r := Gone;
      }
    }

    /** Whatever its client has to do for a contender, a callback does. */
    method Take(ghost x: Mutex, phase: Phase, a: ClientAction) returns (next: Phase)
      requires x.fields == State() && x.phase == phase && ClientMove(x, a).Some?
      modifies this
      ensures State() == ClientMove(x, a).value.fields && next == ClientMove(x, a).value.phase
    {
      var r := Gone;
      match a {
        case CreateFails => r := CreateMutexNodeComplete(-4, None, 0);
        case HandlesCreated(askRc) => r := CreateMutexNodeComplete(0, Some(phase.path), askRc);
        case ListFails => r := LeaderGetChildrenComplete(-4, []);
        case HandlesChildren => r := LeaderGetChildrenComplete(0, phase.names);
        case ProbeFails => r := WatchPrevious(phase.path, -4);
        case HandlesEvent => r := PreviousLeaderWatcher(phase.path);
        case Unlocks(connected, adeleteRc) => r := Unlock(connected, adeleteRc);
        case FinishesUnlock =>
      }
      next := PhaseAfter(phase, r);
    }
  }

  /** zk_watcher_clean_mutex: no mutex of the client leads any more. */
  method ZkWatcherCleanMutex(list: seq<RbZkMutex>)
    modifies set m | m in list
    ensures forall k :: 0 <= k < |list| ==> !list[k].iAmLeader && list[k].path == old(list[k].path)
    ensures forall k :: 0 <= k < |list| ==> list[k].State() == OnClean(old(list[k].State())).0
  {
    for k := 0 to |list|
      invariant forall j :: 0 <= j < |list| ==>
        list[j].path == old(list[j].path) && (j < k ==> !list[j].iAmLeader)
    {
      var _ := list[k].Clean();
    }
  }

  // ---------- the server and all contenders ----------

  /** Where contenders meet: the parent node, and the prefix of their names. */
  datatype Place = Place(parent: string, prefix: string) {
    predicate Valid() { '/' !in prefix }

    function Name(n: nat): string
      requires n < SEQUENCE_LIMIT
    {
      SequenceName(prefix, n)
    }
  }

  datatype Phase =
    | Creating                              // a request is on its way to the server
    | Replied(path: string)                 // its reply is on its way back
    | Asking(path: string)
    | Answered(names: Names)
    | Probing(path: string)
    | Watching(path: string, fired: bool)   // and, once fired, the event is on its way
    | Leading
    | Unlocking(path: string)
    | Deleted
    | Unasked                               // its deletion could not be requested, and nothing follows
    | Stuck                                 // a listing failed, and nothing follows
    | Unheard                               // gone, while its creation may still reach the server
    | Unheeded(path: string)                // gone, while its deletion may still reach the server
    | Freed

  /** There is no struct rb_zk_mutex any more. */
  predicate IsGone(phase: Phase) { phase.Unheard? || phase.Unheeded? || phase.Freed? }

  /** A contender. The last two fields only count, for what is stated below: the
      nodes that were below its own at first, and its later listings. */
  datatype Mutex = Mutex(session: nat, fields: Fields, phase: Phase, ahead: nat, rechecks: nat)

  datatype World = World(
    nodes: map<string, nat>,     // the children of the parent, with their sessions
    next: nat,                   // the next sequence number
    dead: set<nat>,              // sessions that have expired
    mutexes: map<nat, Mutex>
  )

  /** What the server does for a contender, or never gets to do for one that is
      gone, and what its client does: handle a reply or an event, or learn that a
      request failed. A creation may fail for the client although the server has
      created the node, when only the reply is lost. */
  datatype ServerAction = Creates | Lists(names: Names) | Probes | Deletes | Misses

  datatype ClientAction =
    | CreateFails | HandlesCreated(askRc: int)
    | ListFails | HandlesChildren
    | ProbeFails | HandlesEvent
    | Unlocks(connected: bool, adeleteRc: int) | FinishesUnlock

  datatype Event =
    | Locks(m: nat, session: nat)
    | Server(m: nat, server: ServerAction)
    | Client(m: nat, client: ClientAction)
    | Expires(session: nat)
    | Cleans(session: nat)    // the client drops its contenders when it loses the connection

  const START := World(map[], 0, {}, map[])

  function PhaseAfter(phase: Phase, r: Outcome): Phase {
    match r
    case Create(_) => Creating
    case GetChildren(path) => Asking(path)
    case Exists(path) => Probing(path)
    case Watch(path) => Watching(path, false)
    case Delete(path) => Unlocking(path)
    case Lead => Leading
    case Nothing => if phase.Leading? then Unasked else Stuck
    case Gone => PhaseAtEnd(phase)
  }

  /** A contender ends; a request of it that is under way stays so. */
  function PhaseAtEnd(phase: Phase): Phase {
    match phase
    case Creating => Unheard
    case Unheard => Unheard
    case Unlocking(path) => Unheeded(path)
    case Unheeded(path) => Unheeded(path)
    case _ => Freed
  }

  function Handled(x: Mutex, r: (Fields, Outcome)): Mutex { x.(fields := r.0, phase := PhaseAfter(x.phase, r.1)) }

  function Ended(x: Mutex): Mutex { x.(phase := PhaseAtEnd(x.phase)) }

  /** The child of the place that a path denotes. */
  function NodeAt(pl: Place, path: string): Option<string> {
    if BaseName(path).Some? && Parent(path) == pl.parent then BaseName(path) else None
  }

  /** A reply to a listing: the children, in any order. */
  ghost predicate IsListing(names: Names, nodes: map<string, nat>) {
    forall name :: Listed(names, name) <==> name in nodes
  }

  /** The contenders after nodes have gone: watches on those fire. */
  function Fired(pl: Place, mutexes: map<nat, Mutex>, gone: set<string>): map<nat, Mutex> {
    map m | m in mutexes :: Notified(pl, mutexes[m], gone)
  }

  function Notified(pl: Place, x: Mutex, gone: set<string>): Mutex {
    if x.phase.Watching? && NodeAt(pl, x.phase.path).Some? && NodeAt(pl, x.phase.path).value in gone
    then x.(phase := Watching(x.phase.path, true))
    else x
  }

  /** Nodes go, and the watches on them fire. */
  function Without(pl: Place, st: World, gone: set<string>): World {
    st.(nodes := st.nodes - gone, mutexes := Fired(pl, st.mutexes, gone))
  }

  function NodesOf(st: World, session: nat): set<string> {
    set name | name in st.nodes && st.nodes[name] == session
  }

  function Cleaned(x: Mutex, session: nat): Mutex {
    if x.session == session then Handled(x, OnClean(x.fields)) else x
  }

  function Set(st: World, m: nat, x: Mutex): World { st.(mutexes := st.mutexes[m := x]) }

  /** The node of x is created; nobody hears of it if x is gone. */
  function Established(x: Mutex, path: string, ahead: nat): Mutex {
    if x.phase.Creating? then x.(phase := Replied(path), ahead := ahead) else x.(phase := Freed)
  }

  /** Steps of the server on behalf of m. */
  ghost function ServerStep(pl: Place, st: World, m: nat, a: ServerAction): Option<World>
    requires m in st.mutexes
  {
    var x := st.mutexes[m];
    if x.session in st.dead then None
    else
      match a
      case Creates =>
        if (x.phase.Creating? || x.phase.Unheard?) && st.next < SEQUENCE_LIMIT then
          var name := pl.Name(st.next);
          Some(Set(st, m, Established(x, Child(pl.parent, name), |st.nodes|))
               .(nodes := st.nodes[name := x.session], next := st.next + 1))
        else None
      case Lists(names) =>
        if x.phase == Asking(pl.parent) && IsListing(names, st.nodes)
        then Some(Set(st, m, x.(phase := Answered(names))))
        else None
      case Probes =>
        if x.phase.Probing? then
          var path := x.phase.path;
          var there := NodeAt(pl, path).Some? && NodeAt(pl, path).value in st.nodes;
          Some(Set(st, m, Handled(x, OnExists(x.fields, path, if there then 0 else -101))))
        else None
      case Deletes =>
        if x.phase.Unlocking? || x.phase.Unheeded? then
          var gone := if NodeAt(pl, x.phase.path).Some? then {NodeAt(pl, x.phase.path).value} else {};
          Some(Set(Without(pl, st, gone), m, x.(phase := if x.phase.Unlocking? then Deleted else Freed)))
        else None
      case Misses =>
        if x.phase.Unheard? || x.phase.Unheeded? then Some(Set(st, m, x.(phase := Freed))) else None
  }

  /** Steps of a client, for one of its contenders. */
  function ClientMove(x: Mutex, a: ClientAction): Option<Mutex> {
    match a
    case CreateFails =>
      if x.phase.Creating? || x.phase.Replied? then Some(Handled(x, OnCreated(x.fields, -4, None, 0))) else None
    case HandlesCreated(askRc) =>
      if x.phase.Replied? then Some(Handled(x, OnCreated(x.fields, 0, Some(x.phase.path), askRc))) else None
    case ListFails =>
      if x.phase.Asking? then Some(Handled(x, OnChildren(x.fields, -4, []))) else None
    case HandlesChildren =>
      if x.phase.Answered? then Some(Handled(x, OnChildren(x.fields, 0, x.phase.names))) else None
    case ProbeFails =>
      if x.phase.Probing? then Some(Handled(x, OnExists(x.fields, x.phase.path, -4))) else None
    case HandlesEvent =>
      if x.phase.Watching? && x.phase.fired
      then Some(Handled(x, OnEvent(x.fields, x.phase.path)).(rechecks := x.rechecks + 1))
      else None
    case Unlocks(connected, adeleteRc) =>
      if x.phase.Leading? then Some(Handled(x, OnUnlock(x.fields, connected, adeleteRc))) else None
    case FinishesUnlock =>
      if x.phase.Unlocking? || x.phase.Deleted? then Some(Ended(x)) else None
  }

  function ClientStep(st: World, m: nat, a: ClientAction): Option<World>
    requires m in st.mutexes
  {
    match ClientMove(st.mutexes[m], a)
    case None => None
    case Some(y) => Some(Set(st, m, y))
  }

  /** One step; None if it is not possible now. */
  ghost function Do(pl: Place, st: World, e: Event): Option<World> {
    match e
    case Locks(m, session) =>
      if m in st.mutexes || session in st.dead then None
      else Some(Set(st, m, Mutex(session, Fields(Child(pl.parent, pl.prefix), false), Creating, 0, 0)))
    case Server(m, a) => if m in st.mutexes then ServerStep(pl, st, m, a) else None
    case Client(m, a) => if m in st.mutexes then ClientStep(st, m, a) else None
    case Expires(session) => Some(Without(pl, st, NodesOf(st, session)).(dead := st.dead + {session}))
    case Cleans(session) => Some(st.(mutexes := map m | m in st.mutexes :: Cleaned(st.mutexes[m], session)))
  }

  /** The state after a sequence of steps, all of which are possible in turn. */
  ghost function Execute(pl: Place, events: seq<Event>): Option<World> {
    if events == [] then Some(START)
    else
      match Execute(pl, events[..|events| - 1])
      case None => None
      case Some(st) => Do(pl, st, events[|events| - 1])
  }

  // ---------- the invariant ----------

  function One(b: bool): nat { if b then 1 else 0 }

  /** The name of the node that x has created and not given up. */
  function Own(pl: Place, x: Mutex): Option<string> {
    match x.phase
    case Creating => None
    case Unheard => None
    case Freed => None
    case Replied(path) => NodeAt(pl, path)
    case Unheeded(path) => NodeAt(pl, path)
    case _ => NodeAt(pl, x.fields.path)
  }

  /** Every name that is given from now on comes after this one. */
  ghost predicate OldName(pl: Place, next: nat, name: string) {
    '/' !in name && forall k :: next <= k < SEQUENCE_LIMIT ==> Before(name, pl.Name(k))
  }

  function Smaller(nodes: map<string, nat>, own: string): set<string> {
    set name | name in nodes && Before(name, own)
  }

  ghost predicate IsFirst(nodes: map<string, nat>, own: string) {
    own in nodes ==> Smaller(nodes, own) == {}
  }

  /** A listing, however old, still contains every node below the own one. */
  ghost predicate Covers(names: Names, nodes: map<string, nat>, own: string) {
    && (forall name :: name in Smaller(nodes, own) ==> Listed(names, name))
    && (forall name :: Listed(names, name) ==> '/' !in name)
  }

  ghost predicate IsBelow(pl: Place, path: string, own: string) {
    NodeAt(pl, path).Some? && Before(NodeAt(pl, path).value, own)
  }

  ghost predicate PhaseInv(pl: Place, nodes: map<string, nat>, x: Mutex, own: string) {
    match x.phase
    case Asking(path) => path == pl.parent && !x.fields.leader
    case Answered(names) => Covers(names, nodes, own) && !x.fields.leader
    case Probing(path) => IsBelow(pl, path, own) && !x.fields.leader
    case Watching(path, fired) =>
      IsBelow(pl, path, own) && !x.fields.leader && (!fired ==> NodeAt(pl, path).value in nodes)
    case Leading => IsFirst(nodes, own)
    case Unasked => IsFirst(nodes, own)
    case Unlocking(path) => IsFirst(nodes, own) && NodeAt(pl, path) == Some(own)
    case Deleted => own !in nodes
    case Unheeded(_) => true
    case _ => !x.fields.leader
  }

  ghost predicate MutexInv(pl: Place, nodes: map<string, nat>, next: nat, x: Mutex) {
    if x.phase.Creating? then !x.fields.leader && x.rechecks == 0
    else
      x.phase.Freed? || x.phase.Unheard? ||
      (Own(pl, x).Some? && OldName(pl, next, Own(pl, x).value) && PhaseInv(pl, nodes, x, Own(pl, x).value))
  }

  /** The own node is there as long as the session lives and it was not deleted. */
  ghost predicate Lives(pl: Place, st: World, x: Mutex) {
    Own(pl, x).Some? ==>
      && (x.session !in st.dead && !x.phase.Deleted? ==> Own(pl, x).value in st.nodes)
      && (Own(pl, x).value in st.nodes ==> st.nodes[Own(pl, x).value] == x.session)
  }

  /** The listings so far, the nodes below the own one, and the event that is on
      its way are together no more than the nodes that were below at first. */
  ghost predicate Bounded(pl: Place, nodes: map<string, nat>, x: Mutex) {
    Own(pl, x).Some? ==>
      x.rechecks + |Smaller(nodes, Own(pl, x).value)| + One(x.phase.Watching? && x.phase.fired) <= x.ahead
  }

  ghost predicate NodesInv(pl: Place, st: World) {
    && st.next <= SEQUENCE_LIMIT
    && forall name :: name in st.nodes ==> OldName(pl, st.next, name) && st.nodes[name] !in st.dead
  }

  ghost predicate Distinct(pl: Place, st: World) {
    forall m, n :: m in st.mutexes && n in st.mutexes && m != n && Own(pl, st.mutexes[m]).Some? ==>
      Own(pl, st.mutexes[m]) != Own(pl, st.mutexes[n])
  }

  ghost predicate Good(pl: Place, st: World, x: Mutex) {
    MutexInv(pl, st.nodes, st.next, x) && Lives(pl, st, x) && Bounded(pl, st.nodes, x)
  }

  ghost predicate Inv(pl: Place, st: World) {
    && pl.Valid() && NodesInv(pl, st) && Distinct(pl, st)
    && forall m :: m in st.mutexes ==> Good(pl, st, st.mutexes[m])
  }

  // ---------- one contender moves, the nodes stay ----------

  lemma OneMoves(pl: Place, st: World, m: nat, y: Mutex)
    requires Inv(pl, st) && Good(pl, st, y)
    requires Own(pl, y) == None || (m in st.mutexes && Own(pl, y) == Own(pl, st.mutexes[m]))
    ensures Inv(pl, Set(st, m, y))
  {
    hide MutexInv, Lives, Bounded, NodesInv, Own;
    forall n | n in Set(st, m, y).mutexes
      ensures Good(pl, Set(st, m, y), Set(st, m, y).mutexes[n])
    {
      SameNodes(pl, st, Set(st, m, y), Set(st, m, y).mutexes[n]);
    }
    assert NodesInv(pl, Set(st, m, y)) by {
      NodesOnly(pl, st, Set(st, m, y));
    }
  }

  lemma SameNodes(pl: Place, st: World, after: World, x: Mutex)
    requires after.nodes == st.nodes && after.next == st.next && after.dead == st.dead && Good(pl, st, x)
    ensures Good(pl, after, x)
  {
    hide MutexInv, Bounded, Own;
  }

  lemma NodesOnly(pl: Place, st: World, after: World)
    requires after.nodes == st.nodes && after.next == st.next && after.dead == st.dead && NodesInv(pl, st)
    ensures NodesInv(pl, after)
  {
  }

  /** A contender that has a reply in hand, or learns of a failure. */
  lemma {:induction false} ClientKeeps(pl: Place, st: World, m: nat, a: ClientAction)
    requires Inv(pl, st) && m in st.mutexes && ClientStep(st, m, a).Some?
    ensures Inv(pl, ClientStep(st, m, a).value)
  {
    var x, y := st.mutexes[m], ClientStep(st, m, a).value.mutexes[m];
    assert Good(pl, st, x);
    ClientMoves(pl, st, m, a);
    OneMoves(pl, st, m, y);
  }

  ghost predicate MovesTo(pl: Place, st: World, x: Mutex, y: Mutex) {
    Good(pl, st, y) && (Own(pl, y) == None || Own(pl, y) == Own(pl, x))
  }

  lemma {:induction false} ClientMoves(pl: Place, st: World, m: nat, a: ClientAction)
    requires m in st.mutexes && Good(pl, st, st.mutexes[m]) && ClientStep(st, m, a).Some?
    ensures MovesTo(pl, st, st.mutexes[m], ClientStep(st, m, a).value.mutexes[m])
  {
    hide Good, MovesTo;
    var x := st.mutexes[m];
    if a.HandlesChildren? {
      ChildrenAreHandled(pl, st, x);
    } else if a.HandlesCreated? {
      CreatedIsHandled(pl, st, x, a.askRc);
    } else if a.HandlesEvent? {
      EventIsHandled(pl, st, x);
    } else if a.Unlocks? || a.FinishesUnlock? {
      UnlockMoves(pl, st, m, a);
    } else {
      FailureMoves(pl, st, m, a);
    }
  }

  lemma FailureMoves(pl: Place, st: World, m: nat, a: ClientAction)
    requires m in st.mutexes && Good(pl, st, st.mutexes[m]) && ClientStep(st, m, a).Some?
    requires a.CreateFails? || a.ListFails? || a.ProbeFails?
    ensures MovesTo(pl, st, st.mutexes[m], ClientStep(st, m, a).value.mutexes[m])
  {
    hide OldName, Covers, Smaller, NodeAt;
  }

  lemma CreatedIsHandled(pl: Place, st: World, x: Mutex, askRc: int)
    requires Good(pl, st, x) && x.phase.Replied?
    ensures MovesTo(pl, st, x, Handled(x, OnCreated(x.fields, 0, Some(x.phase.path), askRc)))
  {
    hide OldName, Smaller, Covers, IsBelow, IsFirst, BaseName, Parent;
  }

  lemma EventIsHandled(pl: Place, st: World, x: Mutex)
    requires Good(pl, st, x) && x.phase.Watching? && x.phase.fired
    ensures MovesTo(pl, st, x, Handled(x, OnEvent(x.fields, x.phase.path)).(rechecks := x.rechecks + 1))
  {
    hide OldName, Smaller, Covers, IsFirst, BaseName, Parent;
  }

  lemma UnlockMoves(pl: Place, st: World, m: nat, a: ClientAction)
    requires m in st.mutexes && Good(pl, st, st.mutexes[m]) && ClientStep(st, m, a).Some?
    requires a.Unlocks? || a.FinishesUnlock?
    ensures MovesTo(pl, st, st.mutexes[m], ClientStep(st, m, a).value.mutexes[m])
  {
    hide OldName, Covers, Smaller;
  }

  lemma ChildrenAreHandled(pl: Place, st: World, x: Mutex)
    requires Good(pl, st, x) && x.phase.Answered?
    ensures MovesTo(pl, st, x, Handled(x, OnChildren(x.fields, 0, x.phase.names)))
  {
    hide OldName, Covers, Smaller, Previous, NodeAt, IsBelow;
    ChildrenInOrder(pl, st, x);
  }

  /** The heart of it: the decision that a contender makes from an old listing is
      right for the nodes that there are now. */
  lemma ChildrenInOrder(pl: Place, st: World, x: Mutex)
    requires x.phase.Answered? && MutexInv(pl, st.nodes, st.next, x)
    ensures var r := OnChildren(x.fields, 0, x.phase.names).1;
      var own := Own(pl, x).value;
      && (r == Lead ==> Smaller(st.nodes, own) == {})
      && (r.Exists? ==> IsBelow(pl, r.path, own))
      && (r == Lead || r.Exists?)
  {
    var own, names := Own(pl, x).value, x.phase.names;
    BelowIsGreatest(names, own, Below(names, own));
    var b := Below(names, own);
    if b.Some? {
      ChildSplits(pl.parent, b.value);
    }
  }

  // ---------- the server moves ----------

  lemma {:induction false} ListsKeep(pl: Place, st: World, m: nat, a: ServerAction)
    requires Inv(pl, st) && m in st.mutexes && (a.Lists? || a.Probes? || a.Misses?) && ServerStep(pl, st, m, a).Some?
    ensures Inv(pl, ServerStep(pl, st, m, a).value)
  {
    var x, y := st.mutexes[m], ServerStep(pl, st, m, a).value.mutexes[m];
    assert Good(pl, st, x);
    ReplyIsGood(pl, st, m, a);
    hide Inv, Good;
    OneMoves(pl, st, m, y);
  }

  lemma ReplyIsGood(pl: Place, st: World, m: nat, a: ServerAction)
    requires NodesInv(pl, st) && m in st.mutexes && (a.Lists? || a.Probes? || a.Misses?)
    requires ServerStep(pl, st, m, a).Some?
    requires Good(pl, st, st.mutexes[m])
    ensures MovesTo(pl, st, st.mutexes[m], ServerStep(pl, st, m, a).value.mutexes[m])
  {
    NamesAreFlat(pl, st);
    hide OldName, NodeAt, Previous, NodesInv, Smaller, Covers, IsBelow, OnExists, Lives, Bounded;
    if a.Lists? {
      ListingIsGood(pl, st, st.mutexes[m], a.names);
    } else if a.Probes? {
      ProbeIsGood(pl, st, st.mutexes[m]);
    }
  }

  lemma ProbeIsGood(pl: Place, st: World, x: Mutex)
    requires Good(pl, st, x) && x.phase.Probing?
    ensures var there := NodeAt(pl, x.phase.path).Some? && NodeAt(pl, x.phase.path).value in st.nodes;
      MovesTo(pl, st, x, Handled(x, OnExists(x.fields, x.phase.path, if there then 0 else -101)))
  {
    hide OldName, NodeAt, Smaller;
  }

  lemma ListingIsGood(pl: Place, st: World, x: Mutex, names: Names)
    requires Good(pl, st, x) && x.phase.Asking? && IsListing(names, st.nodes)
    requires forall name :: name in st.nodes ==> '/' !in name
    ensures MovesTo(pl, st, x, x.(phase := Answered(names)))
  {
    hide OldName, NodeAt;
  }

  lemma NamesAreFlat(pl: Place, st: World)
    requires NodesInv(pl, st)
    ensures forall name :: name in st.nodes ==> '/' !in name
  {
  }

  /** A node that is new is above every node that anyone knows of. */
  lemma {:induction false} CreateKeeps(pl: Place, st: World, m: nat)
    requires Inv(pl, st) && m in st.mutexes && ServerStep(pl, st, m, Creates).Some?
    ensures Inv(pl, ServerStep(pl, st, m, Creates).value)
  {
    hide Lives, Bounded, MutexInv, Own, Child, OldName;
    var x, after := st.mutexes[m], ServerStep(pl, st, m, Creates).value;
    var name := pl.Name(st.next);
    NewNode(pl, st, after, name, x.session);
    forall n | n in after.mutexes
      ensures Good(pl, after, after.mutexes[n])
      ensures n != m && Own(pl, after.mutexes[n]).Some? ==> Own(pl, after.mutexes[n]).value != name
    {
      assert Good(pl, st, x) && Good(pl, st, st.mutexes[n]);
      hide Good;
      if n == m {
        CreatorIsGood(pl, st, after, x);
      } else {
        GrownIsGood(pl, st, after, st.mutexes[n], name, x.session);
      }
    }
    CreatorHasNew(pl, x, name, |st.nodes|);
  }

  lemma CreatorHasNew(pl: Place, x: Mutex, name: string, ahead: nat)
    requires '/' !in name && (x.phase.Creating? || x.phase.Unheard?)
    ensures Own(pl, Established(x, Child(pl.parent, name), ahead)) == if x.phase.Creating? then Some(name) else None
  {
    ChildSplits(pl.parent, name);
  }

  lemma NewNode(pl: Place, st: World, after: World, name: string, session: nat)
    requires pl.Valid() && NodesInv(pl, st) && st.next < SEQUENCE_LIMIT && session !in st.dead
    requires name == pl.Name(st.next)
    requires after.nodes == st.nodes[name := session] && after.next == st.next + 1 && after.dead == st.dead
    ensures NodesInv(pl, after) && OldName(pl, after.next, name) && '/' !in name
  {
    SequenceNameHasNoSlash(pl.prefix, st.next);
    forall k | after.next <= k < SEQUENCE_LIMIT
      ensures Before(name, pl.Name(k))
    {
      SequenceOrder(pl.prefix, st.next, k);
    }
  }

  lemma CreatorIsGood(pl: Place, st: World, after: World, x: Mutex)
    requires pl.Valid() && NodesInv(pl, st) && st.next < SEQUENCE_LIMIT && Good(pl, st, x)
    requires (x.phase.Creating? || x.phase.Unheard?) && x.session !in st.dead
    requires after.nodes == st.nodes[pl.Name(st.next) := x.session] && after.next == st.next + 1
    requires after.dead == st.dead
    ensures Good(pl, after, Established(x, Child(pl.parent, pl.Name(st.next)), |st.nodes|))
  {
    var name := pl.Name(st.next);
    NewNode(pl, st, after, name, x.session);
    CreatorHasNew(pl, x, name, |st.nodes|);
    BeforeIsTotal(name, name);
    SubsetIsSmaller(Smaller(after.nodes, name), st.nodes.Keys);
    hide OldName, NodeAt;
  }

  lemma GrownIsGood(pl: Place, st: World, after: World, x: Mutex, name: string, session: nat)
    requires Good(pl, st, x) && st.next < SEQUENCE_LIMIT && name == pl.Name(st.next)
    requires after.nodes == st.nodes[name := session] && after.next == st.next + 1 && after.dead == st.dead
    ensures Good(pl, after, x) && (Own(pl, x).Some? ==> Own(pl, x).value != name)
  {
    hide OldName, Smaller, NodeAt;
    if Own(pl, x).Some? {
      NewIsAbove(pl, st, Own(pl, x).value, name, session);
    }
  }

  lemma NewIsAbove(pl: Place, st: World, own: string, name: string, session: nat)
    requires st.next < SEQUENCE_LIMIT && OldName(pl, st.next, own) && name == pl.Name(st.next)
    ensures own != name && OldName(pl, st.next + 1, own)
    ensures Smaller(st.nodes[name := session], own) == Smaller(st.nodes, own)
  {
    assert Before(own, name);
    BeforeIsTotal(own, name);
  }

  lemma {:induction false} SubsetIsSmaller<T>(a: set<T>, b: set<T>)
    requires a <= b
    ensures |a| <= |b| && (a != b ==> |a| < |b|)
    decreases |a|
  {
    if a == {} {
      if b != {} {
        var x :| x in b;
        assert b == (b - {x}) + {x};
      }
    } else {
      var x :| x in a;
      SubsetIsSmaller(a - {x}, b - {x});
      assert a == (a - {x}) + {x} && b == (b - {x}) + {x};
    }
  }

  /** Nodes go: whoever watched one of them is notified, and comes closer. */
  lemma NotifiedIsGood(pl: Place, st: World, after: World, x: Mutex, gone: set<string>)
    requires Good(pl, st, x) && after.nodes == st.nodes - gone && after.next == st.next
    ensures var y := Notified(pl, x, gone);
      && MutexInv(pl, after.nodes, after.next, y) && Bounded(pl, after.nodes, y)
      && Own(pl, y) == Own(pl, x) && y.session == x.session && (y.phase.Deleted? <==> x.phase.Deleted?)
      && y.fields == x.fields
  {
    hide OldName, NodeAt, Smaller;
    if Own(pl, x).Some? {
      FewerBelow(st.nodes, gone, Own(pl, x).value);
    }
  }

  lemma FewerBelow(nodes: map<string, nat>, gone: set<string>, own: string)
    ensures Smaller(nodes - gone, own) <= Smaller(nodes, own)
    ensures |Smaller(nodes - gone, own)| <= |Smaller(nodes, own)|
    ensures forall b :: b in nodes && b in gone && Before(b, own) ==>
            |Smaller(nodes - gone, own)| < |Smaller(nodes, own)|
  {
    SubsetIsSmaller(Smaller(nodes - gone, own), Smaller(nodes, own));
    forall b | b in nodes && b in gone && Before(b, own)
      ensures |Smaller(nodes - gone, own)| < |Smaller(nodes, own)|
    {
      assert b in Smaller(nodes, own) && b !in Smaller(nodes - gone, own);
    }
  }

  lemma {:induction false} DeleteKeeps(pl: Place, st: World, m: nat)
    requires Inv(pl, st) && m in st.mutexes && ServerStep(pl, st, m, Deletes).Some?
    ensures Inv(pl, ServerStep(pl, st, m, Deletes).value)
  {
    hide NodesInv, Own, NodeAt, MutexInv, Lives, Bounded;
    var x, after := st.mutexes[m], ServerStep(pl, st, m, Deletes).value;
    assert Good(pl, st, x);
    hide Good;
    DeletesItsOwn(pl, st, x);
    var own := Own(pl, x).value;
    forall n | n in after.mutexes
      ensures Good(pl, after, after.mutexes[n])
      ensures Own(pl, after.mutexes[n]) == None || Own(pl, after.mutexes[n]) == Own(pl, st.mutexes[n])
    {
      if n == m && x.phase.Unlocking? {
        DeleterIsGood(pl, st, after, x);
      } else if n == m {
        FreedIsGood(pl, after, after.mutexes[m]);
      } else {
        SpectatorIsGood(pl, st, after, st.mutexes[n], own);
      }
    }
    NodesShrink(pl, st, after);
  }

  lemma NodesShrink(pl: Place, st: World, after: World)
    requires NodesInv(pl, st) && after.next == st.next && after.dead == st.dead
    requires after.nodes.Keys <= st.nodes.Keys && forall name :: name in after.nodes ==>
            after.nodes[name] == st.nodes[name]
    ensures NodesInv(pl, after)
  {
    hide OldName;
  }

  lemma DeletesItsOwn(pl: Place, st: World, x: Mutex)
    requires Good(pl, st, x) && (x.phase.Unlocking? || x.phase.Unheeded?)
    ensures NodeAt(pl, x.phase.path) == Own(pl, x) && Own(pl, x).Some?
  {
    hide OldName, NodeAt, Smaller;
  }

  /** Another contender while `own` is deleted. */
  lemma SpectatorIsGood(pl: Place, st: World, after: World, x: Mutex, own: string)
    requires Good(pl, st, x) && Own(pl, x) != Some(own) && after.next == st.next && after.dead == st.dead
    requires after.nodes == st.nodes - {own}
    ensures Good(pl, after, Notified(pl, x, {own})) && Own(pl, Notified(pl, x, {own})) == Own(pl, x)
  {
    NotifiedIsGood(pl, st, after, x, {own});
    hide MutexInv, Bounded, Own, Notified;
  }

  lemma DeleterIsGood(pl: Place, st: World, after: World, x: Mutex)
    requires Good(pl, st, x) && x.phase.Unlocking? && after.next == st.next && after.dead == st.dead
    requires after.nodes == st.nodes - {Own(pl, x).value}
    ensures Good(pl, after, x.(phase := Deleted))
    ensures Own(pl, x.(phase := Deleted)) == Own(pl, x)
  {
    var own := Own(pl, x).value;
    hide OldName, Smaller, NodeAt;
    FewerBelow(st.nodes, {own}, own);
  }

  lemma {:induction false} ExpiryKeeps(pl: Place, st: World, session: nat)
    requires Inv(pl, st)
    ensures Inv(pl, Do(pl, st, Expires(session)).value)
  {
    var after, gone := Do(pl, st, Expires(session)).value, NodesOf(st, session);
    forall n | n in after.mutexes
      ensures Good(pl, after, after.mutexes[n])
      ensures Own(pl, after.mutexes[n]) == Own(pl, st.mutexes[n])
    {
      assert Good(pl, st, st.mutexes[n]);
      NotifiedIsGood(pl, st, after, st.mutexes[n], gone);
      hide MutexInv, Bounded, Smaller, OldName, NodesInv;
    }
    hide Good;
    assert NodesInv(pl, after);
  }

  lemma {:induction false} CleanKeeps(pl: Place, st: World, session: nat)
    requires Inv(pl, st)
    ensures Inv(pl, Do(pl, st, Cleans(session)).value)
  {
    var after := Do(pl, st, Cleans(session)).value;
    forall n | n in after.mutexes
      ensures Good(pl, after, after.mutexes[n])
      ensures Own(pl, after.mutexes[n]).Some? ==> Own(pl, after.mutexes[n]) == Own(pl, st.mutexes[n])
    {
      CleanedIsGood(pl, st, after, st.mutexes[n], session);
    }
    NodesOnly(pl, st, after);
    hide Good, NodesInv, Own;
  }

  lemma CleanedIsGood(pl: Place, st: World, after: World, x: Mutex, session: nat)
    requires Good(pl, st, x) && after.nodes == st.nodes && after.next == st.next && after.dead == st.dead
    ensures Good(pl, after, Cleaned(x, session))
    ensures Own(pl, Cleaned(x, session)).Some? ==> Own(pl, Cleaned(x, session)) == Own(pl, x)
  {
    hide OldName, Smaller, Covers, NodeAt, PhaseInv, Good;
    SameNodes(pl, st, after, x);
    if x.session == session {
      EndedIsGood(pl, after, x, Cleaned(x, session));
    }
  }

  /** A contender ends, and keeps its node only as long as that is being deleted. */
  lemma EndedIsGood(pl: Place, st: World, x: Mutex, y: Mutex)
    requires Good(pl, st, x) && y.(fields := x.fields) == Ended(x) && y.fields.path == x.fields.path
    ensures MovesTo(pl, st, x, y)
  {
    hide OldName, Smaller, Covers, NodeAt;
  }

  lemma FreedIsGood(pl: Place, st: World, y: Mutex)
    requires y.phase.Freed?
    ensures Good(pl, st, y) && Own(pl, y) == None
  {
    hide NodeAt;
  }

  lemma StepKeepsInvariant(pl: Place, st: World, e: Event)
    requires Inv(pl, st) && Do(pl, st, e).Some?
    ensures Inv(pl, Do(pl, st, e).value)
  {
    match e
    case Locks(m, session) =>
      hide NodesInv, Distinct;
      OneMoves(pl, st, m, Mutex(session, Fields(Child(pl.parent, pl.prefix), false), Creating, 0, 0));
    case Server(m, a) =>
      hide Inv, ServerStep;
      match a {
        case Creates => CreateKeeps(pl, st, m);
        case Deletes => DeleteKeeps(pl, st, m);
        case _ => ListsKeep(pl, st, m, a);
      }
    case Client(m, a) =>
      hide Inv, ClientStep;
      ClientKeeps(pl, st, m, a);
    case Expires(session) =>
      hide Inv;
      ExpiryKeeps(pl, st, session);
    case Cleans(session) =>
      hide Inv;
      CleanKeeps(pl, st, session);
  }

  lemma {:induction false} ExecutionKeepsInvariant(pl: Place, events: seq<Event>)
    requires pl.Valid() && Execute(pl, events).Some?
    ensures Inv(pl, Execute(pl, events).value)
    decreases |events|
  {
    if events != [] {
      hide Inv, Do;
      var init := events[..|events| - 1];
      ExecutionKeepsInvariant(pl, init);
      StepKeepsInvariant(pl, Execute(pl, init).value, events[|events| - 1]);
    }
  }

  // ---------- what that means ----------

  /** m takes itself for the leader. */
  predicate Obtained(st: World, m: nat) {
    m in st.mutexes && st.mutexes[m].fields.leader && !IsGone(st.mutexes[m].phase)
  }

  /** The node of m is there. */
  ghost predicate OwnIsLive(pl: Place, st: World, m: nat) {
    m in st.mutexes && Own(pl, st.mutexes[m]).Some? && Own(pl, st.mutexes[m]).value in st.nodes
  }

  /** Whoever has obtained the lock, and whose node is still there, has the first
      of all nodes. */
  lemma {:induction false} HolderIsFirst(pl: Place, events: seq<Event>, st: World, m: nat)
    requires pl.Valid() && Execute(pl, events) == Some(st)
    requires Obtained(st, m) && OwnIsLive(pl, st, m)
    ensures forall name :: name in st.nodes && name != Own(pl, st.mutexes[m]).value ==>
              Before(Own(pl, st.mutexes[m]).value, name)
  {
    hide OldName, NodeAt, Lives, Bounded, NodesInv, Distinct;
    ExecutionKeepsInvariant(pl, events);
    assert Good(pl, st, st.mutexes[m]);
    var own := Own(pl, st.mutexes[m]).value;
    forall name | name in st.nodes && name != own
      ensures Before(own, name)
    {
      BeforeIsTotal(own, name);
      assert name !in Smaller(st.nodes, own);
    }
  }

  /** Mutual exclusion, in every run: no two contenders have obtained the lock
      while their nodes are there. */
  lemma {:induction false} MutualExclusion(pl: Place, events: seq<Event>, st: World, m: nat, n: nat)
    requires pl.Valid() && Execute(pl, events) == Some(st) && m != n
    requires Obtained(st, m) && OwnIsLive(pl, st, m)
    ensures !(Obtained(st, n) && OwnIsLive(pl, st, n))
  {
    ExecutionKeepsInvariant(pl, events);
    if Obtained(st, n) && OwnIsLive(pl, st, n) {
      HolderIsFirst(pl, events, st, m);
      HolderIsFirst(pl, events, st, n);
      BeforeIsTotal(Own(pl, st.mutexes[m]).value, Own(pl, st.mutexes[n]).value);
    }
  }

  /** No wake-up is lost: whoever waits watches a node that is there and is below
      its own, or an event is on its way to it. */
  lemma {:induction false} WaitersWatch(pl: Place, events: seq<Event>, st: World, m: nat)
    requires pl.Valid() && Execute(pl, events) == Some(st)
    requires m in st.mutexes && st.mutexes[m].phase.Watching?
    ensures var x := st.mutexes[m];
      && Own(pl, x).Some? && NodeAt(pl, x.phase.path).Some?
      && (x.phase.fired || NodeAt(pl, x.phase.path).value in Smaller(st.nodes, Own(pl, x).value))
  {
    hide OldName, NodeAt, Lives, Bounded, NodesInv, Distinct;
    ExecutionKeepsInvariant(pl, events);
    assert Good(pl, st, st.mutexes[m]);
  }

  /** The nodes below that of a contender never become more, and become fewer
      whenever its watch fires. */
  lemma {:induction false} StepsBringCloser(pl: Place, st: World, e: Event, m: nat)
    requires Inv(pl, st) && Do(pl, st, e).Some? && m in st.mutexes && Own(pl, st.mutexes[m]).Some?
    ensures var after, own := Do(pl, st, e).value, Own(pl, st.mutexes[m]).value;
      && m in after.mutexes
      && Smaller(after.nodes, own) <= Smaller(st.nodes, own)
      && (st.mutexes[m].phase.Watching? && !st.mutexes[m].phase.fired
          && after.mutexes[m].phase.Watching? && after.mutexes[m].phase.fired ==>
            |Smaller(after.nodes, own)| < |Smaller(st.nodes, own)|)
  {
    var x, after, own := st.mutexes[m], Do(pl, st, e).value, Own(pl, st.mutexes[m]).value;
    assert Good(pl, st, x);
    NobodyLeaves(pl, st, e, m);
    NodesGrowAbove(pl, st, e, own);
    if x.phase.Watching? && !x.phase.fired && after.mutexes[m].phase.Watching? && after.mutexes[m].phase.fired {
      var b := NodeAt(pl, x.phase.path).value;
      WatchedIsGone(pl, st, e, m);
      hide Do, NodeAt, OldName;
      assert b in Smaller(st.nodes, own) && b !in Smaller(after.nodes, own);
      SubsetIsSmaller(Smaller(after.nodes, own), Smaller(st.nodes, own));
    }
  }

  lemma NobodyLeaves(pl: Place, st: World, e: Event, m: nat)
    requires Do(pl, st, e).Some? && m in st.mutexes
    ensures m in Do(pl, st, e).value.mutexes
  {
    hide NodeAt, Previous;
  }

  lemma NodesGrowAbove(pl: Place, st: World, e: Event, own: string)
    requires Do(pl, st, e).Some? && OldName(pl, st.next, own)
    ensures Smaller(Do(pl, st, e).value.nodes, own) <= Smaller(st.nodes, own)
  {
    if e.Server? && e.server.Creates? {
      assert Before(own, pl.Name(st.next));
      BeforeIsTotal(own, pl.Name(st.next));
    }
  }

  lemma WatchedIsGone(pl: Place, st: World, e: Event, m: nat)
    requires Do(pl, st, e).Some? && m in st.mutexes && m in Do(pl, st, e).value.mutexes
    requires st.mutexes[m].phase.Watching? && !st.mutexes[m].phase.fired
    requires Do(pl, st, e).value.mutexes[m].phase.Watching? && Do(pl, st, e).value.mutexes[m].phase.fired
    ensures NodeAt(pl, st.mutexes[m].phase.path).Some?
    ensures NodeAt(pl, st.mutexes[m].phase.path).value !in Do(pl, st, e).value.nodes
  {
    hide NodeAt, Previous;
  }

  /** However long the run, a contender lists again at most as often as there were
      nodes below its own when that was created. */
  lemma {:induction false} RechecksAreBounded(pl: Place, events: seq<Event>, st: World, m: nat)
    requires pl.Valid() && Execute(pl, events) == Some(st)
    requires m in st.mutexes && Own(pl, st.mutexes[m]).Some?
    ensures var x := st.mutexes[m]; x.rechecks + |Smaller(st.nodes, Own(pl, x).value)| <= x.ahead
  {
    hide OldName, NodeAt, MutexInv, Lives, NodesInv, Distinct;
    ExecutionKeepsInvariant(pl, events);
    assert Good(pl, st, st.mutexes[m]);
  }

  /** Every node belongs to a contender that waits or leads, and nothing is on
      its way. */
  ghost predicate Quiet(pl: Place, st: World) {
    forall name :: name in st.nodes ==>
      exists m :: m in st.mutexes && Own(pl, st.mutexes[m]) == Some(name)
        && (st.mutexes[m].phase.Leading? || (st.mutexes[m].phase.Watching? && !st.mutexes[m].phase.fired))
  }

  /** The wait chain is well founded: when nothing is on its way, and no node was
      abandoned, then some contender leads, unless there is none. */
  lemma {:induction false} SomeoneLeads(pl: Place, events: seq<Event>, st: World)
    requires pl.Valid() && Execute(pl, events) == Some(st)
    requires Quiet(pl, st) && st.nodes != map[]
    ensures exists m :: m in st.mutexes && st.mutexes[m].phase.Leading? && OwnIsLive(pl, st, m)
  {
    hide OldName, NodeAt, MutexInv, NodesInv, Distinct, Bounded;
    ExecutionKeepsInvariant(pl, events);
    assert exists name :: name in st.nodes;
    var some :| some in st.nodes;
    var first := FirstNode(st.nodes, some);
    var m :| m in st.mutexes && Own(pl, st.mutexes[m]) == Some(first)
      && (st.mutexes[m].phase.Leading? || (st.mutexes[m].phase.Watching? && !st.mutexes[m].phase.fired));
    assert Good(pl, st, st.mutexes[m]);
    if st.mutexes[m].phase.Watching? {
      WaiterIsNotFirst(pl, st, st.mutexes[m]);
      assert false;
    }
    assert OwnIsLive(pl, st, m);
  }

  lemma WaiterIsNotFirst(pl: Place, st: World, x: Mutex)
    requires Good(pl, st, x) && x.phase.Watching? && !x.phase.fired
    ensures Own(pl, x).Some? && Smaller(st.nodes, Own(pl, x).value) != {}
  {
    hide OldName, NodeAt, Lives, Bounded;
    assert NodeAt(pl, x.phase.path).value in Smaller(st.nodes, Own(pl, x).value);
  }

  lemma {:induction false} FirstNode(nodes: map<string, nat>, name: string) returns (first: string)
    requires name in nodes
    ensures first in nodes && Smaller(nodes, first) == {}
    decreases |Smaller(nodes, name)|
  {
    if Smaller(nodes, name) == {} {
      first := name;
    } else {
      var less :| less in Smaller(nodes, name);
      BeforeIsTotal(less, less);
      forall other | other in Smaller(nodes, less)
        ensures other in Smaller(nodes, name)
      {
        BeforeIsTransitive(other, less, name);
      }
      SubsetIsSmaller(Smaller(nodes, less), Smaller(nodes, name));
      first := FirstNode(nodes, less);
    }
  }

  /** The decision from a listing that is up to date is exact: a contender leads
      if and only if no node is below its own, and otherwise asks for the closest
      of those that are. */
  lemma {:induction false} FreshListingDecides(pl: Place, st: World, x: Mutex)
    requires Good(pl, st, x) && x.phase.Answered? && IsListing(x.phase.names, st.nodes)
    ensures var r, below := OnChildren(x.fields, 0, x.phase.names).1, Smaller(st.nodes, Own(pl, x).value);
      && (r == Lead <==> below == {})
      && (r.Exists? <==> below != {})
      && (r.Exists? ==>
            && NodeAt(pl, r.path).Some? && NodeAt(pl, r.path).value in below
            && forall name :: name in below ==> !Before(NodeAt(pl, r.path).value, name))
  {
    hide OldName, Lives, Bounded;
    var own, names := Own(pl, x).value, x.phase.names;
    BelowIsGreatest(names, own, Below(names, own));
    var b := Below(names, own);
    if b.Some? {
      ChildSplits(pl.parent, b.value);
      assert b.value in Smaller(st.nodes, own);
    } else {
      assert forall name :: name in st.nodes ==> Listed(names, name);
    }
  }

  /** A lost connection ends every contender of the session, none of which takes
      itself for the leader any more, and no other contender. */
  lemma CleaningDemotes(pl: Place, st: World, session: nat, m: nat)
    requires m in st.mutexes
    ensures var x, after := st.mutexes[m], Do(pl, st, Cleans(session)).value;
      && after.nodes == st.nodes && m in after.mutexes
      && if x.session == session
         then IsGone(after.mutexes[m].phase) && after.mutexes[m].fields == Fields(x.fields.path, false)
         else after.mutexes[m] == x
  {
  }

  // ---------- what a user of the lock relies on ----------

  /** It leads, and has not unlocked, or in vain. */
  predicate Holds(phase: Phase) { phase.Leading? || phase.Unasked? }

  /** Of the contenders whose sessions live, one leads at most; this counts one
      whose unlock was in vain. */
  lemma OnlyOneLeads(pl: Place, st: World, m: nat, n: nat)
    requires Inv(pl, st) && m in st.mutexes && n in st.mutexes
    requires Holds(st.mutexes[m].phase) && Holds(st.mutexes[n].phase)
    requires st.mutexes[m].session !in st.dead && st.mutexes[n].session !in st.dead
    ensures m == n
  {
    hide OldName, NodeAt, Bounded, NodesInv;
    assert Good(pl, st, st.mutexes[m]) && Good(pl, st, st.mutexes[n]);
    var a, b := Own(pl, st.mutexes[m]).value, Own(pl, st.mutexes[n]).value;
    BeforeIsTotal(a, b);
    assert a !in Smaller(st.nodes, b) && b !in Smaller(st.nodes, a);
  }

  predicate IsUnlocking(phase: Phase) { phase.Unlocking? || phase.Deleted? || phase.Unasked? }

  /** How a contender moves in a step that is not a call to unlock. */
  ghost predicate Proceeds(x: Mutex, y: Mutex, e: Event) {
    && y.session == x.session
    && (x.phase.Leading? ==> y.phase.Leading? || (IsGone(y.phase) && e.Cleans?))
    && (y.phase.Leading? ==> x.phase.Leading? || x.phase.Answered?)
    && (x.phase.Unasked? ==> y.phase.Unasked? || (IsGone(y.phase) && e.Cleans?))
    && (y.phase.Unasked? ==> x.phase.Unasked?)
    && (IsGone(x.phase) ==> IsGone(y.phase))
    && (IsUnlocking(y.phase) ==> IsUnlocking(x.phase))
    && (IsUnlocking(x.phase) ==> IsUnlocking(y.phase) || IsGone(y.phase))
    && (IsUnlocking(x.phase) && IsGone(y.phase) ==> e.Cleans? || (e.Client? && e.client.FinishesUnlock?))
    && (!IsGone(x.phase) && IsGone(y.phase) && e.Client? && e.client.FinishesUnlock? ==> IsUnlocking(x.phase))
    && (e.Cleans? ==> if e.session == x.session then IsGone(y.phase) && !y.fields.leader else y == x)
    && (y.phase.Leading? && !x.phase.Leading? ==> y.fields.leader)
  }

  lemma {:induction false} MutexProceeds(pl: Place, st: World, e: Event, m: nat)
    requires Do(pl, st, e).Some? && m in st.mutexes && !(e.Client? && e.client.Unlocks?)
    ensures m in Do(pl, st, e).value.mutexes && Proceeds(st.mutexes[m], Do(pl, st, e).value.mutexes[m], e)
  {
    hide NodeAt, Proceeds, ServerStep, ClientStep;
    NobodyLeaves(pl, st, e, m);
    if e.Server? {
      ServerProceeds(pl, st, e.m, e.server, m);
    } else if e.Client? {
      ClientMovesOne(st, e.m, e.client, m);
      ClientProceeds(st, e.m, e.client, m);
    } else {
      OthersProceed(pl, st, e, m);
    }
  }

  lemma ServerProceeds(pl: Place, st: World, n: nat, a: ServerAction, m: nat)
    requires n in st.mutexes && m in st.mutexes && ServerStep(pl, st, n, a).Some?
    ensures m in ServerStep(pl, st, n, a).value.mutexes
    ensures Proceeds(st.mutexes[m], ServerStep(pl, st, n, a).value.mutexes[m], Server(n, a))
  {
    hide NodeAt;
    if a.Deletes? {
      DeletionProceeds(pl, st, n, m);
    }
  }

  lemma DeletionProceeds(pl: Place, st: World, n: nat, m: nat)
    requires n in st.mutexes && m in st.mutexes && ServerStep(pl, st, n, Deletes).Some?
    ensures m in ServerStep(pl, st, n, Deletes).value.mutexes
    ensures Proceeds(st.mutexes[m], ServerStep(pl, st, n, Deletes).value.mutexes[m], Server(n, Deletes))
  {
    hide NodeAt;
  }

  lemma ClientMovesOne(st: World, n: nat, a: ClientAction, m: nat)
    requires n in st.mutexes && ClientStep(st, n, a).Some?
    ensures m in ClientStep(st, n, a).value.mutexes <==> m in st.mutexes
    ensures m in st.mutexes && m != n ==> ClientStep(st, n, a).value.mutexes[m] == st.mutexes[m]
  {
    hide Previous;
  }

  lemma {:induction false} ClientProceeds(st: World, n: nat, a: ClientAction, m: nat)
    requires n in st.mutexes && m in st.mutexes && ClientStep(st, n, a).Some? && !a.Unlocks?
    ensures m in ClientStep(st, n, a).value.mutexes
    ensures Proceeds(st.mutexes[m], ClientStep(st, n, a).value.mutexes[m], Client(n, a))
  {
    hide Previous;
    ClientMovesOne(st, n, a, m);
  }

  lemma OthersProceed(pl: Place, st: World, e: Event, m: nat)
    requires Do(pl, st, e).Some? && m in st.mutexes && m in Do(pl, st, e).value.mutexes && !e.Server? && !e.Client?
    ensures Proceeds(st.mutexes[m], Do(pl, st, e).value.mutexes[m], e)
  {
    hide NodeAt;
  }

  lemma NobodyComes(pl: Place, st: World, e: Event)
    requires Do(pl, st, e).Some? && !e.Locks?
    ensures Do(pl, st, e).value.mutexes.Keys == st.mutexes.Keys
    ensures Do(pl, st, e).value.dead == if e.Expires? then st.dead + {e.session} else st.dead
  {
    hide NodeAt, Previous, Notified;
  }
}
