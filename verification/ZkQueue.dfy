/** The queue (rb_zk.c): whoever holds the lock takes the first element, hands its
    data over, deletes it, and gives the lock back. An empty queue is watched. */
module ZkQueue {
  import opened Wrappers
  import opened CStrings
  import opened ZkNames
  import L = ZkLock

  // ---------- what a consumer does ----------

  /** The fields of struct rb_zk_queue_element that its callbacks read and write. */
  datatype Fields = Fields(path: string, elementPath: string, ignoreWatcher: bool, refcnt: int)

  /** What a callback ends in. */
  datatype Outcome =
    | List(path: string, watch: bool)
    | Get(path: string)
    | Delete(path: string)
    | Unlock
    | Wait
    | Stay
    | Fail

  function Released(x: Fields): Fields { x.(refcnt := x.refcnt - 1) }

  /** rb_zk_queue_pop_nolock */
  function OnObtained(x: Fields): (Fields, Outcome) { (x, List(Parent(x.path), false)) }

  /** rb_zk_queue_pop_minimum0. When the second listing cannot even be requested,
      nothing happens any more, and nobody is told. */
  function OnMinimum(x: Fields, rc: int, names: Names, watcherSet: bool, awgetRc: int): (Fields, Outcome) {
    if rc < 0 then (Released(x), Fail)
    else
      match Least(names)
      case Some(name) =>
        var path := Child(Parent(x.path), name);
        (x.(elementPath := path, ignoreWatcher := x.ignoreWatcher || watcherSet), Get(path))
      case None => (x, if watcherSet then Wait else if awgetRc != 0 then Stay else List(Parent(x.path), true))
  }

  /** rb_zk_queue_get_element; the data is handed over unless rc is an error. When
      the deletion cannot even be requested, nothing happens any more. */
  function OnElement(x: Fields, rc: int, adeleteRc: int): (Fields, Outcome) {
    if rc < 0 then (Released(x), Fail) else (x, if adeleteRc < 0 then Stay else Delete(x.elementPath))
  }

  /** rb_zk_queue_delete_completed, whether or not the deletion succeeded. */
  function OnDeleted(x: Fields): (Fields, Outcome) { (Released(x), Unlock) }

  /** rb_zk_queue_child_watcher */
  function OnChildEvent(x: Fields): (Fields, Outcome) { (x, if x.ignoreWatcher then Wait else OnObtained(x).1) }

  /** rb_zk_queue_mutex_status_change: what its mutex says of itself decides. */
  function OnStatusChange(x: Fields, obtained: bool): (Fields, Outcome) {
    if obtained then OnObtained(x) else (x, Wait)
  }

  /** rb_zk_queue_mutex_error_cb */
  function OnLockError(x: Fields): (Fields, Outcome) { (Released(x), Fail) }

  class RbZkQueueElement {
    const path: string
    var elementPath: string
    var shouldIgnoreWatcher: bool
    var refcnt: int

    ghost function State(): Fields
      reads this
    {
      Fields(path, elementPath, shouldIgnoreWatcher, refcnt)
    }

    /** new_queue_element */
    constructor (path: string)
      ensures State() == Fields(path, "", false, 1)
    {
      this.path := path;
      elementPath, shouldIgnoreWatcher, refcnt := "", false, 1;
    }

    method PopNolock() returns (r: Outcome)
      ensures (State(), r) == OnObtained(State())
    {
      r := List(Parent(path), false);
    }

    method PopMinimum0(rc: int, strings: Names, watcherSetted: bool, awgetRc: int) returns (r: Outcome)
      modifies this
      ensures (State(), r) == OnMinimum(old(State()), rc, strings, watcherSetted, awgetRc)
    {
      if rc < 0 {
        refcnt := refcnt - 1;
        return Fail;
      }
      var minStr := MinStr(strings);
      if minStr.Some? {
        elementPath := Child(Parent(path), minStr.value);
        if watcherSetted {
          shouldIgnoreWatcher := true;
        }
        r := Get(elementPath);
      } else if !watcherSetted {
        r := List(Parent(path), true);
        if awgetRc != 0 {
          r := Stay;
        }
      } else {
        r := Wait;
      }
    }

    method GetElement(rc: int, adeleteRc: int) returns (r: Outcome)
      modifies this
      ensures (State(), r) == OnElement(old(State()), rc, adeleteRc)
    {
      if rc < 0 {
        refcnt := refcnt - 1;
        return Fail;
      }
      r := Delete(elementPath);
      if adeleteRc < 0 {
        r := Stay;
      }
    }

    method ChildWatcher() returns (r: Outcome)
      ensures (State(), r) == OnChildEvent(State())
    {
      r := Wait;
      if !shouldIgnoreWatcher {
        r := PopNolock();
      }
    }

    method DeleteCompleted() returns (r: Outcome)
      modifies this
      ensures (State(), r) == OnDeleted(old(State()))
    {
      refcnt := refcnt - 1;
      r := Unlock;
    }

    method MutexStatusChange(obtained: bool) returns (r: Outcome)
      ensures (State(), r) == OnStatusChange(State(), obtained)
    {
      r := Wait;
      if obtained {
        r := PopNolock();
      }
    }

    method MutexError() returns (r: Outcome)
      modifies this
      ensures (State(), r) == OnLockError(old(State()))
    {
      refcnt := refcnt - 1;
      r := Fail;
    }

    /** Whatever its client has to do for a consumer, a callback does. */
    method Take(ghost c: Consumer, phase: Phase, a: ClientAction) returns (next: Phase)
      requires c.fields == State() && c.phase == phase && ConsumerMove(c, a).Some?
      modifies this
      ensures State() == ConsumerMove(c, a).value.fields && next == ConsumerMove(c, a).value.phase
    {
      var r := Wait;
      match a {
        case ListFails => r := PopMinimum0(-4, [], phase.watch, 0);
        case HandlesMinimum(awgetRc) => r := PopMinimum0(0, phase.names, phase.watch, awgetRc);
        case HandlesChildEvent => r := ChildWatcher();
        case GetFails => r := GetElement(-4, 0);
        case HandlesElement(adeleteRc) => r := GetElement(if phase.value.Some? then 0 else -101, adeleteRc);
        case DeleteFails => return Deleted;
        case HandlesDeleted(_, _) => r := DeleteCompleted();
      }
      next := if a.HandlesChildEvent? && r.Wait? then phase else PhaseAfter(r);
    }

    /** And what the lock has to tell a consumer, the callbacks do: first that its
        status has changed, and then that it has failed. */
    method Learn(ghost c: Consumer, phase: Phase, ghost x: L.Mutex, ghost y: L.Mutex, ghost e: L.Event, leads: bool,
                 changed: bool, failed: bool)
      returns (next: Phase)
      requires c.fields == State() && c.phase == phase && leads == y.fields.leader
      requires changed == StatusChanges(x, y, e) && failed == Fails(x, y, e)
      modifies this
      ensures State() == AfterLock(c, x, y, e).fields && next == AfterLock(c, x, y, e).phase
    {
      var r := Wait;
      if changed {
        r := MutexStatusChange(leads);
      }
      next := if r.Wait? then phase else PhaseAfter(r);
      if failed {
        var f := MutexError();
        next := if r.Wait? && !phase.Done? then PhaseAfter(f) else next;
      }
    }
  }

  // ---------- the server, the lock, and all consumers ----------

  datatype Setup = Setup(lock: L.Place, queue: L.Place) {
    predicate Valid() { lock.Valid() && queue.Valid() }
  }

  datatype Phase =
    | Waiting                                               // for the lock
    | Listing(path: string, watch: bool)
    | Replied(names: Names, watch: bool)                    // a reply is on its way back
    | Idle
    | Getting(path: string)
    | Got(path: string, value: Option<string>)
    | Deleting(path: string)
    | Deleted
    | Stuck                                                 // a request could not be made, and nothing follows
    | Done
    | Failed

  /** Its watch on the children of the queue node; once it has fired, the event is
      on its way. */
  datatype Watch = NoWatch | Pending | Fired

  datatype Consumer = Consumer(fields: Fields, phase: Phase, watch: Watch)

  datatype Delivery = Delivery(name: string, value: string)

  /** Consumer m contends for the lock as contender m. */
  datatype World = World(
    lock: L.World,
    elements: map<string, string>,     // the children of the queue node, with their data
    pushed: seq<string>,               // the data of all elements ever, by sequence number
    consumers: map<nat, Consumer>,
    delivered: seq<Delivery>,          // what was handed over, in order
    late: set<string>                  // deletions that nobody waits for, but may still reach the server
  )

  datatype ServerAction = Lists(names: Names) | Gets | Deletes

  datatype ClientAction =
    | ListFails | HandlesMinimum(awgetRc: int) | HandlesChildEvent
    | GetFails | HandlesElement(adeleteRc: int)
    | DeleteFails | HandlesDeleted(connected: bool, adeleteRc: int)

  datatype Event =
    | Pushes(value: string)
    | Pops(m: nat, session: nat)
    | LockStep(step: L.Event)
    | Server(m: nat, server: ServerAction)
    | Client(m: nat, client: ClientAction)
    | LateDeletion(name: string)

  const START := World(L.START, map[], [], map[], [], {})

  function PhaseAfter(r: Outcome): Phase {
    match r
    case List(path, watch) => Listing(path, watch)
    case Get(path) => Getting(path)
    case Delete(path) => Deleting(path)
    case Unlock => Done
    case Wait => Idle
    case Stay => Stuck
    case Fail => Failed
  }

  function Handled(c: Consumer, r: (Fields, Outcome)): Consumer { c.(fields := r.0, phase := PhaseAfter(r.1)) }

  function Set(w: World, m: nat, c: Consumer): World { w.(consumers := w.consumers[m := c]) }

  /** The children of the queue node change: watches on it fire. */
  function Notified(c: Consumer): Consumer { if c.watch.Pending? then c.(watch := Fired) else c }

  function AllNotified(consumers: map<nat, Consumer>): map<nat, Consumer> {
    map m | m in consumers :: Notified(consumers[m])
  }

  ghost predicate IsListing(names: Names, elements: map<string, string>) {
    forall name :: Listed(names, name) <==> name in elements
  }

  /** A contender tells its consumer that its status has changed when it begins to
      lead, and when its client drops it. */
  predicate StatusChanges(x: L.Mutex, y: L.Mutex, e: L.Event) {
    (!x.phase.Leading? && y.phase.Leading?) || (e.Cleans? && Fails(x, y, e))
  }

  /** It tells it of an error when it is gone without having been unlocked. */
  predicate Fails(x: L.Mutex, y: L.Mutex, e: L.Event) {
    !L.IsGone(x.phase) && L.IsGone(y.phase) && !(e.Client? && e.client.FinishesUnlock?)
  }

  /** A consumer after what its contender tells it when that goes from x to y. */
  function AfterLock(c: Consumer, x: L.Mutex, y: L.Mutex, e: L.Event): Consumer {
    var r := if StatusChanges(x, y, e) then OnStatusChange(c.fields, y.fields.leader) else (c.fields, Wait);
    var told := if r.1.Wait? then c else Handled(c, r);
    if Fails(x, y, e) then
      told.(fields := OnLockError(told.fields).0, phase := if r.1.Wait? && !c.phase.Done? then Failed else told.phase)
    else told
  }

  /** The elements whose deletion a client has asked for. */
  function BeingDeleted(s: Setup, w: World, session: nat): set<string> {
    set m | m in w.consumers && m in w.lock.mutexes && w.lock.mutexes[m].session == session
            && w.consumers[m].phase.Deleting? && L.NodeAt(s.queue, w.consumers[m].phase.path).Some?
          :: L.NodeAt(s.queue, w.consumers[m].phase.path).value
  }

  /** A step of the lock that a consumer does not take by itself. */
  ghost function DoLock(s: Setup, w: World, e: L.Event): Option<World> {
    var after := L.Do(s.lock, w.lock, e);
    if after.None? || e.Locks? || (e.Client? && e.client.Unlocks?) then None
    else Some(w.(lock := after.value,
                 late := if e.Cleans? then w.late + BeingDeleted(s, w, e.session) else w.late,
                 consumers := map m | m in w.consumers ::
                   if m in w.lock.mutexes && m in after.value.mutexes
                   then AfterLock(w.consumers[m], w.lock.mutexes[m], after.value.mutexes[m], e)
                   else w.consumers[m]))
  }

  function NamesAt(s: Setup, path: string): set<string> {
    if L.NodeAt(s.queue, path).Some? then {L.NodeAt(s.queue, path).value} else {}
  }

  ghost function DoServer(s: Setup, w: World, m: nat, a: ServerAction): Option<World>
    requires m in w.consumers
  {
    var c := w.consumers[m];
    if m !in w.lock.mutexes || w.lock.mutexes[m].session in w.lock.dead then None
    else
      match a
      case Lists(names) =>
        if c.phase.Listing? && c.phase.path == s.queue.parent && IsListing(names, w.elements)
        then Some(Set(w, m, c.(phase := Replied(names, c.phase.watch),
                               watch := if c.phase.watch then Pending else c.watch)))
        else None
      case Gets =>
        if c.phase.Getting? then
          var name := L.NodeAt(s.queue, c.phase.path);
          Some(Set(w, m, c.(phase := Got(c.phase.path,
            if name.Some? && name.value in w.elements then Some(w.elements[name.value]) else None))))
        else None
      case Deletes =>
        if c.phase.Deleting? then
          var gone := NamesAt(s, c.phase.path);
          Some(Set(w.(elements := w.elements - gone, consumers := AllNotified(w.consumers)), m,
                   Notified(c).(phase := Deleted)))
        else None
  }

  /** An event is handled once the reply to the request that set the watch has been,
      and as long as the consumer has not been freed. */
  predicate Listens(phase: Phase) {
    phase.Idle? || phase.Getting? || phase.Got? || phase.Deleting? || phase.Deleted? || phase.Stuck?
  }

  /** Steps of a client, for one of its consumers. */
  function ConsumerMove(c: Consumer, a: ClientAction): Option<Consumer> {
    match a
    case ListFails =>
      if c.phase.Listing? then Some(Handled(c, OnMinimum(c.fields, -4, [], c.phase.watch, 0))) else None
    case HandlesMinimum(awgetRc) =>
      if c.phase.Replied?
      then Some(Handled(c, OnMinimum(c.fields, 0, c.phase.names, c.phase.watch, awgetRc)))
      else None
    case HandlesChildEvent =>
      if c.watch.Fired? && Listens(c.phase) then
        var r := OnChildEvent(c.fields);
        Some((if r.1.Wait? then c else Handled(c, r)).(watch := NoWatch))
      else None
    case GetFails =>
      if c.phase.Getting? then Some(Handled(c, OnElement(c.fields, -4, 0))) else None
    case HandlesElement(adeleteRc) =>
      if c.phase.Got?
      then Some(Handled(c, OnElement(c.fields, if c.phase.value.Some? then 0 else -101, adeleteRc)))
      else None
    case DeleteFails =>
      if c.phase.Deleting? then Some(c.(phase := Deleted)) else None
    case HandlesDeleted(_, _) =>
      if c.phase.Deleted? then Some(Handled(c, OnDeleted(c.fields))) else None
  }

  ghost function DoClient(s: Setup, w: World, m: nat, a: ClientAction): Option<World>
    requires m in w.consumers
  {
    var c := w.consumers[m];
    match ConsumerMove(c, a)
    case None => None
    case Some(d) =>
      match a
      case HandlesElement(_) =>
        if c.phase.value.None? then Some(Set(w, m, d))
        else
          var name := if L.NodeAt(s.queue, c.phase.path).Some? then L.NodeAt(s.queue, c.phase.path).value else "";
          Some(Set(w, m, d).(delivered := w.delivered + [Delivery(name, c.phase.value.value)]))
      case DeleteFails => Some(Set(w, m, d).(late := w.late + NamesAt(s, c.phase.path)))
      case HandlesDeleted(connected, adeleteRc) =>
        var unlock := L.Do(s.lock, w.lock, L.Client(m, L.Unlocks(connected, adeleteRc)));
        if unlock.None? then None else Some(Set(w, m, d).(lock := unlock.value))
      case _ => Some(Set(w, m, d))
  }

  /** One step; None if it is not possible now. */
  ghost function Do(s: Setup, w: World, e: Event): Option<World> {
    match e
    case Pushes(value) =>
      if |w.pushed| < SEQUENCE_LIMIT
      then Some(w.(elements := w.elements[s.queue.Name(|w.pushed|) := value], pushed := w.pushed + [value],
                   consumers := AllNotified(w.consumers)))
      else None
    case Pops(m, session) =>
      var lock := L.Do(s.lock, w.lock, L.Locks(m, session));
      if lock.None? then None
      else
        var fields := Fields(Child(s.queue.parent, s.queue.prefix), "", false, 1);
        Some(Set(w, m, Consumer(fields, Waiting, NoWatch)).(lock := lock.value))
    case LockStep(step) => DoLock(s, w, step)
    case Server(m, a) => if m in w.consumers then DoServer(s, w, m, a) else None
    case Client(m, a) => if m in w.consumers then DoClient(s, w, m, a) else None
    case LateDeletion(name) =>
      if name in w.late
      then Some(w.(elements := w.elements - {name}, consumers := AllNotified(w.consumers), late := w.late - {name}))
      else None
  }

  /** The state after a sequence of steps, all of which are possible in turn. */
  ghost function Execute(s: Setup, events: seq<Event>): Option<World> {
    if events == [] then Some(START)
    else
      match Execute(s, events[..|events| - 1])
      case None => None
      case Some(w) => Do(s, w, events[|events| - 1])
  }

  // ---------- what holds in every run ----------

  ghost predicate HandedOver(delivered: seq<Delivery>, name: string) {
    exists k :: 0 <= k < |delivered| && delivered[k].name == name
  }

  /** The element of this name was pushed with this data. */
  ghost predicate IsPushed(s: Setup, pushed: seq<string>, name: string, value: string) {
    exists i :: 0 <= i < |pushed| && i < SEQUENCE_LIMIT && name == s.queue.Name(i) && value == pushed[i]
  }

  /** Elements are there as they were pushed, or they were handed over; and what
      was handed over is what was pushed. */
  ghost predicate StoreInv(s: Setup, w: World) {
    && |w.pushed| <= SEQUENCE_LIMIT
    && (forall name :: name in w.elements ==> IsPushed(s, w.pushed, name, w.elements[name]))
    && (forall i :: 0 <= i < |w.pushed| ==> s.queue.Name(i) in w.elements || HandedOver(w.delivered, s.queue.Name(i)))
    && (forall k :: 0 <= k < |w.delivered| ==> IsPushed(s, w.pushed, w.delivered[k].name, w.delivered[k].value))
    && (forall name :: name in w.late ==> HandedOver(w.delivered, name))
  }

  /** Inside of the section that the lock protects. */
  predicate Critical(phase: Phase) { !phase.Waiting? && !phase.Done? && !phase.Failed? }

  /** A consumer and its contender go together. */
  ghost predicate Coupled(c: Consumer, x: L.Mutex) {
    match c.phase
    case Waiting => !x.phase.Leading? && !L.IsUnlocking(x.phase) && !L.IsGone(x.phase)
    case Done => L.IsUnlocking(x.phase) || L.IsGone(x.phase)
    case Failed => x.phase.Leading? || L.IsGone(x.phase)
    case _ => x.phase.Leading?
  }

  /** A consumer looks for an element until it has found one. From then on an event
      is ignored. */
  predicate WatchInv(c: Consumer) {
    match c.phase
    case Waiting => c.watch.NoWatch? && Looks(c.fields)
    case Listing(_, _) => c.watch.NoWatch? && Looks(c.fields)
    case Replied(_, watch) => (watch <==> !c.watch.NoWatch?) && Looks(c.fields)
    case Idle => !c.watch.NoWatch? && Looks(c.fields)
    case Stuck => c.watch.NoWatch? || c.fields.ignoreWatcher
    case Done => true
    case Failed => true
    case _ => (c.watch.NoWatch? || c.fields.ignoreWatcher) && c.fields.elementPath != ""
  }

  predicate Looks(x: Fields) { !x.ignoreWatcher && x.elementPath == "" }

  ghost predicate PhaseInv(s: Setup, elements: map<string, string>, pushed: seq<string>, delivered: seq<Delivery>,
                           c: Consumer) {
    WatchInv(c) &&
    match c.phase
    case Replied(names, _) => c.watch.Pending? ==> IsListing(names, elements)
    case Idle => c.watch.Pending? ==> elements == map[]
    case Getting(path) => path == c.fields.elementPath
    case Got(path, value) =>
      path == c.fields.elementPath
      && (value.Some? ==>
            L.NodeAt(s.queue, path).Some? && IsPushed(s, pushed, L.NodeAt(s.queue, path).value, value.value))
    case Deleting(path) => L.NodeAt(s.queue, path).Some? && HandedOver(delivered, L.NodeAt(s.queue, path).value)
    case _ => true
  }

  ghost predicate ConsumerInv(s: Setup, w: World, m: nat)
    requires m in w.consumers
  {
    m in w.lock.mutexes && Coupled(w.consumers[m], w.lock.mutexes[m])
    && PhaseInv(s, w.elements, w.pushed, w.delivered, w.consumers[m])
  }

  ghost predicate Inv(s: Setup, w: World) {
    && s.Valid() && L.Inv(s.lock, w.lock) && StoreInv(s, w)
    && w.consumers.Keys == w.lock.mutexes.Keys
    && forall m :: m in w.consumers ==> ConsumerInv(s, w, m)
  }

  // ---------- every step keeps it ----------

  lemma NameIsFlat(s: Setup, n: nat)
    requires s.Valid() && n < SEQUENCE_LIMIT
    ensures '/' !in s.queue.Name(n)
  {
    SequenceNameHasNoSlash(s.queue.prefix, n);
  }

  lemma {:induction false} PushKeeps(s: Setup, w: World, value: string)
    requires Inv(s, w) && Do(s, w, Pushes(value)).Some?
    ensures Inv(s, Do(s, w, Pushes(value)).value)
  {
    hide StoreInv, L.Inv, PhaseInv, Notified, L.Place.Name;
    assert |w.pushed| < SEQUENCE_LIMIT;
    var after := Do(s, w, Pushes(value)).value;
    PushKeepsStore(s, w, value);
    forall m | m in after.consumers
      ensures ConsumerInv(s, after, m)
    {
      assert ConsumerInv(s, w, m);
      PushMeets(s, w, value, w.consumers[m]);
      StillCoupled(w.consumers[m], w.lock.mutexes[m]);
    }
  }

  lemma StillCoupled(c: Consumer, x: L.Mutex)
    requires Coupled(c, x)
    ensures Coupled(Notified(c), x)
  {
  }

  lemma PushKeepsStore(s: Setup, w: World, value: string)
    requires StoreInv(s, w) && |w.pushed| < SEQUENCE_LIMIT
    ensures var name := s.queue.Name(|w.pushed|);
      StoreInv(s, w.(elements := w.elements[name := value], pushed := w.pushed + [value],
                     consumers := AllNotified(w.consumers)))
  {
    hide L.Place.Name;
    var next := s.queue.Name(|w.pushed|);
    var pushed, elements := w.pushed + [value], w.elements[next := value];
    assert pushed[|w.pushed|] == value;
    assert IsPushed(s, pushed, next, value);
    forall name | name in elements
      ensures IsPushed(s, pushed, name, elements[name])
    {
      if name != next {
        PushedStays(s, w.pushed, value, name, elements[name]);
      }
    }
    forall k | 0 <= k < |w.delivered|
      ensures IsPushed(s, pushed, w.delivered[k].name, w.delivered[k].value)
    {
      PushedStays(s, w.pushed, value, w.delivered[k].name, w.delivered[k].value);
    }
    hide IsPushed, HandedOver;
  }

  lemma PushedStays(s: Setup, pushed: seq<string>, more: string, name: string, value: string)
    requires IsPushed(s, pushed, name, value)
    ensures IsPushed(s, pushed + [more], name, value)
  {
    var i :| 0 <= i < |pushed| && i < SEQUENCE_LIMIT && name == s.queue.Name(i) && value == pushed[i];
    assert (pushed + [more])[i] == value;
  }

  lemma PushMeets(s: Setup, w: World, value: string, c: Consumer)
    requires PhaseInv(s, w.elements, w.pushed, w.delivered, c) && |w.pushed| < SEQUENCE_LIMIT
    ensures PhaseInv(s, w.elements[s.queue.Name(|w.pushed|) := value], w.pushed + [value], w.delivered, Notified(c))
    ensures Notified(c).fields == c.fields
  {
    hide L.NodeAt;
    if c.phase.Got? && c.phase.value.Some? {
      PushedStays(s, w.pushed, value, L.NodeAt(s.queue, c.phase.path).value, c.phase.value.value);
    }
    hide IsPushed, HandedOver, IsListing;
  }

  lemma PopKeeps(s: Setup, w: World, m: nat, session: nat)
    requires Inv(s, w) && Do(s, w, Pops(m, session)).Some?
    ensures Inv(s, Do(s, w, Pops(m, session)).value)
  {
    hide L.Inv, L.Do, PhaseInv, Coupled, StoreInv;
    var after := Do(s, w, Pops(m, session)).value;
    L.StepKeepsInvariant(s.lock, w.lock, L.Locks(m, session));
    LockAddsOne(s, w, m, session);
    forall n | n in after.consumers
      ensures ConsumerInv(s, after, n)
    {
      if n == m {
        WaiterMeets(s, w, after.consumers[m], after.lock.mutexes[m]);
      } else {
        assert ConsumerInv(s, w, n);
      }
    }
    StoreIsSame(s, w, after);
  }

  lemma LockAddsOne(s: Setup, w: World, m: nat, session: nat)
    requires L.Do(s.lock, w.lock, L.Locks(m, session)).Some?
    ensures var after := L.Do(s.lock, w.lock, L.Locks(m, session)).value;
      && m !in w.lock.mutexes && after.dead == w.lock.dead && after.mutexes.Keys == w.lock.mutexes.Keys + {m}
      && after.mutexes[m].phase.Creating?
      && forall n :: n in w.lock.mutexes ==> after.mutexes[n] == w.lock.mutexes[n]
  {
  }

  lemma WaiterMeets(s: Setup, w: World, c: Consumer, x: L.Mutex)
    requires c.phase.Waiting? && WatchInv(c) && x.phase.Creating?
    ensures Coupled(c, x) && PhaseInv(s, w.elements, w.pushed, w.delivered, c)
  {
  }

  lemma {:induction false} LockStepKeeps(s: Setup, w: World, e: L.Event)
    requires Inv(s, w) && DoLock(s, w, e).Some?
    ensures Inv(s, DoLock(s, w, e).value)
  {
    hide L.Do, L.Inv, PhaseInv, Coupled, AfterLock, L.Proceeds, StoreInv;
    var after := DoLock(s, w, e).value;
    L.StepKeepsInvariant(s.lock, w.lock, e);
    L.NobodyComes(s.lock, w.lock, e);
    forall m | m in after.consumers
      ensures ConsumerInv(s, after, m)
    {
      assert ConsumerInv(s, w, m);
      L.MutexProceeds(s.lock, w.lock, e, m);
      LockMeets(s, w, w.consumers[m], w.lock.mutexes[m], after.lock.mutexes[m], e);
    }
    LateIsHandedOver(s, w, e);
    StoreIsSame(s, w, after);
  }

  lemma LateIsHandedOver(s: Setup, w: World, e: L.Event)
    requires Inv(s, w) && DoLock(s, w, e).Some?
    ensures forall name :: name in DoLock(s, w, e).value.late ==> HandedOver(w.delivered, name)
  {
    hide L.Do, L.Inv, Coupled, L.NodeAt, HandedOver, AfterLock;
    forall m | m in w.consumers && w.consumers[m].phase.Deleting?
      ensures L.NodeAt(s.queue, w.consumers[m].phase.path).Some?
      ensures HandedOver(w.delivered, L.NodeAt(s.queue, w.consumers[m].phase.path).value)
    {
      assert ConsumerInv(s, w, m);
    }
  }

  lemma LockMeets(s: Setup, w: World, c: Consumer, x: L.Mutex, y: L.Mutex, e: L.Event)
    requires Coupled(c, x) && PhaseInv(s, w.elements, w.pushed, w.delivered, c) && L.Proceeds(x, y, e)
    ensures var d := AfterLock(c, x, y, e);
      Coupled(d, y) && PhaseInv(s, w.elements, w.pushed, w.delivered, d)
  {
    hide L.NodeAt, IsPushed, HandedOver, IsListing;
  }

  /** A consumer moves, and the store is as it was. */
  lemma ConsumerMoves(s: Setup, w: World, m: nat, d: Consumer)
    requires Inv(s, w) && m in w.consumers
    requires Coupled(d, w.lock.mutexes[m]) && PhaseInv(s, w.elements, w.pushed, w.delivered, d)
    ensures Inv(s, Set(w, m, d))
  {
    hide L.Inv, PhaseInv, Coupled;
    forall n | n in Set(w, m, d).consumers
      ensures ConsumerInv(s, Set(w, m, d), n)
    {
      assert ConsumerInv(s, w, n);
    }
  }

  lemma {:induction false} ServerKeeps(s: Setup, w: World, m: nat, a: ServerAction)
    requires Inv(s, w) && m in w.consumers && DoServer(s, w, m, a).Some? && !a.Deletes?
    ensures Inv(s, DoServer(s, w, m, a).value)
  {
    var d := DoServer(s, w, m, a).value.consumers[m];
    assert ConsumerInv(s, w, m);
    ServerMeets(s, w, m, a);
    hide Inv, PhaseInv, Coupled;
    ConsumerMoves(s, w, m, d);
  }

  lemma ServerMeets(s: Setup, w: World, m: nat, a: ServerAction)
    requires m in w.consumers && ConsumerInv(s, w, m) && StoreInv(s, w) && DoServer(s, w, m, a).Some? && !a.Deletes?
    ensures var d := DoServer(s, w, m, a).value.consumers[m];
      Coupled(d, w.lock.mutexes[m]) && PhaseInv(s, w.elements, w.pushed, w.delivered, d)
  {
    hide L.NodeAt, IsPushed, HandedOver, IsListing;
  }

  /** The server deletes an element, which was handed over before. */
  lemma {:induction false} DeleteKeeps(s: Setup, w: World, m: nat)
    requires Inv(s, w) && m in w.consumers && DoServer(s, w, m, Deletes).Some?
    ensures Inv(s, DoServer(s, w, m, Deletes).value)
  {
    hide StoreInv, L.Inv, L.NodeAt, PhaseInv, Coupled;
    var after := DoServer(s, w, m, Deletes).value;
    assert ConsumerInv(s, w, m);
    DeletingIsHandedOver(s, w, w.consumers[m]);
    var gone := L.NodeAt(s.queue, w.consumers[m].phase.path).value;
    DeleteKeepsStore(s, w, after, gone);
    forall n | n in after.consumers
      ensures ConsumerInv(s, after, n)
    {
      assert ConsumerInv(s, w, n);
      DeleteMeets(s, w, gone, w.consumers[n]);
      DeletedMeets(s, w, w.consumers[n], w.lock.mutexes[n]);
    }
  }

  lemma DeletingIsHandedOver(s: Setup, w: World, c: Consumer)
    requires PhaseInv(s, w.elements, w.pushed, w.delivered, c) && c.phase.Deleting?
    ensures L.NodeAt(s.queue, c.phase.path).Some? && HandedOver(w.delivered, L.NodeAt(s.queue, c.phase.path).value)
  {
    hide L.NodeAt;
  }

  lemma DeletedMeets(s: Setup, w: World, c: Consumer, x: L.Mutex)
    requires Coupled(c, x) && PhaseInv(s, w.elements, w.pushed, w.delivered, c)
    ensures Coupled(Notified(c), x)
    ensures c.phase.Deleting? ==> Coupled(c.(phase := Deleted), x) && Coupled(Notified(c).(phase := Deleted), x)
    ensures c.phase.Deleting? ==>
              && PhaseInv(s, w.elements, w.pushed, w.delivered, c.(phase := Deleted))
              && forall gone :: PhaseInv(s, w.elements - {gone}, w.pushed, w.delivered, Notified(c).(phase := Deleted))
  {
  }

  lemma DeleteKeepsStore(s: Setup, w: World, after: World, gone: string)
    requires StoreInv(s, w) && HandedOver(w.delivered, gone)
    requires after.elements == w.elements - {gone} && after.pushed == w.pushed && after.delivered == w.delivered
    requires after.late <= w.late
    ensures StoreInv(s, after)
  {
    hide IsPushed, HandedOver;
  }

  lemma DeleteMeets(s: Setup, w: World, gone: string, c: Consumer)
    requires PhaseInv(s, w.elements, w.pushed, w.delivered, c)
    ensures PhaseInv(s, w.elements - {gone}, w.pushed, w.delivered, Notified(c)) && Notified(c).fields == c.fields
  {
    hide L.NodeAt, IsPushed, HandedOver, IsListing;
  }

  lemma {:induction false} ClientKeeps(s: Setup, w: World, m: nat, a: ClientAction)
    requires Inv(s, w) && m in w.consumers && DoClient(s, w, m, a).Some?
    requires !a.HandlesElement? && !a.HandlesDeleted? && !a.DeleteFails?
    ensures Inv(s, DoClient(s, w, m, a).value)
  {
    var d := DoClient(s, w, m, a).value.consumers[m];
    assert ConsumerInv(s, w, m);
    ClientMeets(s, w, m, a);
    hide Inv, PhaseInv, Coupled;
    ConsumerMoves(s, w, m, d);
  }

  /** A deletion fails for the client, though it may still happen. */
  lemma {:induction false} DeleteFailureKeeps(s: Setup, w: World, m: nat)
    requires Inv(s, w) && m in w.consumers && DoClient(s, w, m, DeleteFails).Some?
    ensures Inv(s, DoClient(s, w, m, DeleteFails).value)
  {
    hide StoreInv, L.Inv, L.NodeAt, PhaseInv, Coupled;
    var after := DoClient(s, w, m, DeleteFails).value;
    assert ConsumerInv(s, w, m);
    DeletingIsHandedOver(s, w, w.consumers[m]);
    StoreIsSame(s, w, after);
    DeletedMeets(s, w, w.consumers[m], w.lock.mutexes[m]);
    forall n | n in after.consumers
      ensures ConsumerInv(s, after, n)
    {
      assert ConsumerInv(s, w, n);
    }
  }

  /** A deletion happens that nobody waits for. */
  lemma {:induction false} LateDeletionKeeps(s: Setup, w: World, name: string)
    requires Inv(s, w) && Do(s, w, LateDeletion(name)).Some?
    ensures Inv(s, Do(s, w, LateDeletion(name)).value)
  {
    var after := Do(s, w, LateDeletion(name)).value;
    assert HandedOver(w.delivered, name);
    hide StoreInv, L.Inv, PhaseInv, Coupled, HandedOver;
    DeleteKeepsStore(s, w, after, name);
    forall n | n in after.consumers
      ensures ConsumerInv(s, after, n)
    {
      assert ConsumerInv(s, w, n);
      DeleteMeets(s, w, name, w.consumers[n]);
      StillCoupled(w.consumers[n], w.lock.mutexes[n]);
    }
  }

  /** What an event leads to: a consumer that waits for elements lists again, and
      any other one goes on as if there had been none. */
  lemma EventIsHandledIff(c: Consumer)
    requires WatchInv(c)
    ensures ConsumerMove(c, HandlesChildEvent).Some? <==> c.watch.Fired? && Listens(c.phase)
    ensures c.watch.Fired? && Listens(c.phase) ==>
              ConsumerMove(c, HandlesChildEvent).value ==
              if c.phase.Idle? then Consumer(c.fields, Listing(Parent(c.fields.path), false), NoWatch)
              else c.(watch := NoWatch)
  {
  }

  lemma InvGivesWatchInv(s: Setup, w: World, m: nat)
    requires Inv(s, w) && m in w.consumers
    ensures WatchInv(w.consumers[m])
  {
    hide L.Inv, StoreInv, Coupled, WatchInv, IsListing, L.NodeAt;
    assert ConsumerInv(s, w, m);
  }

  lemma ClientMeets(s: Setup, w: World, m: nat, a: ClientAction)
    requires m in w.consumers && ConsumerInv(s, w, m) && DoClient(s, w, m, a).Some?
    requires !a.HandlesElement? && !a.HandlesDeleted?
    ensures var d := DoClient(s, w, m, a).value.consumers[m];
      Coupled(d, w.lock.mutexes[m]) && PhaseInv(s, w.elements, w.pushed, w.delivered, d)
  {
    if a.HandlesMinimum? {
      LeastIsLeast(w.consumers[m].phase.names, Least(w.consumers[m].phase.names));
    }
    hide L.NodeAt, IsPushed, HandedOver, Least;
  }

  lemma {:induction false} ElementKeeps(s: Setup, w: World, m: nat, adeleteRc: int)
    requires Inv(s, w) && m in w.consumers && DoClient(s, w, m, HandlesElement(adeleteRc)).Some?
    ensures Inv(s, DoClient(s, w, m, HandlesElement(adeleteRc)).value)
  {
    var after := DoClient(s, w, m, HandlesElement(adeleteRc)).value;
    hide L.Inv, StoreInv, PhaseInv, Coupled, DoClient, L.NodeAt;
    assert ConsumerInv(s, w, m);
    ElementMeets(s, w, m, adeleteRc);
    hide Inv, ConsumerInv, IsPushed;
    if w.consumers[m].phase.value.None? {
      ConsumerMoves(s, w, m, after.consumers[m]);
    } else {
      DeliveryKeeps(s, w, after, m, after.consumers[m], after.delivered[|w.delivered|]);
    }
  }

  lemma {:induction false} DeliveryKeeps(s: Setup, w: World, after: World, m: nat, c: Consumer, d: Delivery)
    requires Inv(s, w) && m in w.consumers && after.consumers == w.consumers[m := c]
    requires after.lock == w.lock && after.elements == w.elements && after.pushed == w.pushed && after.late == w.late
    requires after.delivered == w.delivered + [d] && IsPushed(s, w.pushed, d.name, d.value)
    requires m in w.lock.mutexes && Coupled(c, w.lock.mutexes[m])
    requires PhaseInv(s, w.elements, w.pushed, after.delivered, c)
    ensures Inv(s, after)
  {
    hide L.Inv, StoreInv, PhaseInv, Coupled, IsPushed;
    DeliveryKeepsStore(s, w, after, d);
    forall n | n in after.consumers && n != m
      ensures ConsumerInv(s, after, n)
    {
      assert ConsumerInv(s, w, n);
      DeliveryMeets(s, w, d, w.consumers[n]);
    }
  }

  /** What consumer c has got is appended to what was handed over. */
  ghost predicate Appends(s: Setup, w: World, after: World, c: Consumer)
    requires c.phase.Got? && c.phase.value.Some?
  {
    |after.delivered| == |w.delivered| + 1 &&
    var d := after.delivered[|w.delivered|];
    after.delivered == w.delivered + [d] && IsPushed(s, w.pushed, d.name, d.value)
    && d.value == c.phase.value.value && L.NodeAt(s.queue, c.phase.path) == Some(d.name)
  }

  lemma {:induction false} ElementMeets(s: Setup, w: World, m: nat, adeleteRc: int)
    requires m in w.consumers && ConsumerInv(s, w, m) && DoClient(s, w, m, HandlesElement(adeleteRc)).Some?
    ensures var after, c := DoClient(s, w, m, HandlesElement(adeleteRc)).value, w.consumers[m];
      && m in after.consumers && after.lock == w.lock && after.elements == w.elements && after.pushed == w.pushed
      && after.late == w.late
      && after.consumers == w.consumers[m := after.consumers[m]]
      && c.phase.Got? && Coupled(after.consumers[m], w.lock.mutexes[m])
      && PhaseInv(s, w.elements, w.pushed, after.delivered, after.consumers[m])
      && (c.phase.value.None? ==> after == Set(w, m, after.consumers[m]))
      && (c.phase.value.Some? ==> Appends(s, w, after, c))
  {
    hide L.NodeAt, IsPushed;
    var after := DoClient(s, w, m, HandlesElement(adeleteRc)).value;
    if w.consumers[m].phase.value.Some? {
      var d := after.delivered[|w.delivered|];
      assert HandedOver(after.delivered, d.name);
    }
  }

  lemma DeliveryKeepsStore(s: Setup, w: World, after: World, d: Delivery)
    requires StoreInv(s, w) && IsPushed(s, w.pushed, d.name, d.value)
    requires after.elements == w.elements && after.pushed == w.pushed && after.delivered == w.delivered + [d]
    requires after.late == w.late
    ensures StoreInv(s, after)
  {
    forall name | HandedOver(w.delivered, name)
      ensures HandedOver(after.delivered, name)
    {
      HandedOverStays(w.delivered, d, name);
    }
    hide IsPushed, HandedOver;
  }

  lemma HandedOverStays(delivered: seq<Delivery>, d: Delivery, name: string)
    requires HandedOver(delivered, name)
    ensures HandedOver(delivered + [d], name)
  {
    var k :| 0 <= k < |delivered| && delivered[k].name == name;
    assert (delivered + [d])[k].name == name;
  }

  lemma DeliveryMeets(s: Setup, w: World, d: Delivery, c: Consumer)
    requires PhaseInv(s, w.elements, w.pushed, w.delivered, c)
    ensures PhaseInv(s, w.elements, w.pushed, w.delivered + [d], c)
  {
    hide L.NodeAt;
    if c.phase.Deleting? {
      HandedOverStays(w.delivered, d, L.NodeAt(s.queue, c.phase.path).value);
    }
    hide IsPushed, HandedOver, IsListing;
  }

  lemma {:induction false} DeletedKeeps(s: Setup, w: World, m: nat, connected: bool, adeleteRc: int)
    requires Inv(s, w) && m in w.consumers && DoClient(s, w, m, HandlesDeleted(connected, adeleteRc)).Some?
    ensures Inv(s, DoClient(s, w, m, HandlesDeleted(connected, adeleteRc)).value)
  {
    hide L.Inv, L.Do, PhaseInv, Coupled, StoreInv, L.IsUnlocking;
    var after := DoClient(s, w, m, HandlesDeleted(connected, adeleteRc)).value;
    L.StepKeepsInvariant(s.lock, w.lock, L.Client(m, L.Unlocks(connected, adeleteRc)));
    UnlockMovesOne(s, w, m, connected, adeleteRc);
    forall n | n in after.consumers
      ensures ConsumerInv(s, after, n)
    {
      assert ConsumerInv(s, w, n);
      if n == m {
        DoneMeets(s, w, after.consumers[m], after.lock.mutexes[m]);
      }
    }
    StoreIsSame(s, w, after);
  }

  lemma UnlockMovesOne(s: Setup, w: World, m: nat, connected: bool, adeleteRc: int)
    requires m in w.lock.mutexes && L.Do(s.lock, w.lock, L.Client(m, L.Unlocks(connected, adeleteRc))).Some?
    ensures var after := L.Do(s.lock, w.lock, L.Client(m, L.Unlocks(connected, adeleteRc))).value;
      && after.dead == w.lock.dead && after.mutexes.Keys == w.lock.mutexes.Keys
      && (L.IsUnlocking(after.mutexes[m].phase) || L.IsGone(after.mutexes[m].phase))
      && (after.mutexes[m].phase.Unasked? <==> connected && adeleteRc != 0)
      && forall n :: n in w.lock.mutexes && n != m ==> after.mutexes[n] == w.lock.mutexes[n]
  {
  }

  lemma DoneMeets(s: Setup, w: World, c: Consumer, x: L.Mutex)
    requires c.phase.Done? && (L.IsUnlocking(x.phase) || L.IsGone(x.phase))
    ensures Coupled(c, x) && PhaseInv(s, w.elements, w.pushed, w.delivered, c)
  {
  }

  lemma StoreIsSame(s: Setup, w: World, after: World)
    requires StoreInv(s, w) && after.elements == w.elements && after.pushed == w.pushed
    requires after.delivered == w.delivered
    requires forall name :: name in after.late ==> name in w.late || HandedOver(w.delivered, name)
    ensures StoreInv(s, after)
  {
    hide IsPushed, HandedOver;
  }

  lemma {:induction false} StepKeepsInvariant(s: Setup, w: World, e: Event)
    requires Inv(s, w) && Do(s, w, e).Some?
    ensures Inv(s, Do(s, w, e).value)
  {
    hide Inv, DoLock, DoServer, DoClient;
    if e.Pushes? {
      PushKeeps(s, w, e.value);
    } else if e.Pops? {
      PopKeeps(s, w, e.m, e.session);
    } else if e.LockStep? {
      LockStepKeeps(s, w, e.step);
    } else if e.Server? {
      if e.server.Deletes? {
        DeleteKeeps(s, w, e.m);
      } else {
        ServerKeeps(s, w, e.m, e.server);
      }
    } else if e.LateDeletion? {
      LateDeletionKeeps(s, w, e.name);
    } else if e.client.HandlesElement? {
      ElementKeeps(s, w, e.m, e.client.adeleteRc);
    } else if e.client.HandlesDeleted? {
      DeletedKeeps(s, w, e.m, e.client.connected, e.client.adeleteRc);
    } else if e.client.DeleteFails? {
      DeleteFailureKeeps(s, w, e.m);
    } else {
      ClientKeeps(s, w, e.m, e.client);
    }
  }

  lemma {:induction false} ExecutionKeepsInvariant(s: Setup, events: seq<Event>)
    requires s.Valid() && Execute(s, events).Some?
    ensures Inv(s, Execute(s, events).value)
    decreases |events|
  {
    if events == [] {
      L.ExecutionKeepsInvariant(s.lock, []);
    } else {
      hide Inv, Do;
      var init := events[..|events| - 1];
      ExecutionKeepsInvariant(s, init);
      StepKeepsInvariant(s, Execute(s, init).value, events[|events| - 1]);
    }
  }

  // ---------- what that means ----------

  /** In every run, an element that is gone was handed over before, and whatever
      was handed over is an element with the data that was pushed. */
  lemma {:induction false} NothingIsLost(s: Setup, events: seq<Event>, w: World)
    requires s.Valid() && Execute(s, events) == Some(w)
    ensures |w.pushed| <= SEQUENCE_LIMIT
    ensures forall i :: 0 <= i < |w.pushed| ==>
            s.queue.Name(i) in w.elements || HandedOver(w.delivered, s.queue.Name(i))
    ensures forall k :: 0 <= k < |w.delivered| ==> IsPushed(s, w.pushed, w.delivered[k].name, w.delivered[k].value)
  {
    ExecutionKeepsInvariant(s, events);
  }

  /** No element is overlooked: a consumer that holds the lock and waits for
      elements, without an event on its way, waits at an empty queue. */
  lemma {:induction false} IdleAtEmptyQueue(s: Setup, events: seq<Event>, w: World, m: nat)
    requires s.Valid() && Execute(s, events) == Some(w) && m in w.consumers && w.consumers[m].phase.Idle?
    requires !w.consumers[m].watch.Fired?
    ensures w.elements == map[]
  {
    ExecutionKeepsInvariant(s, events);
    assert ConsumerInv(s, w, m);
  }

  /** The protected section protects: of the consumers whose sessions live, one
      is in it at most. */
  lemma OneInSection(s: Setup, w: World, m: nat, n: nat)
    requires Inv(s, w) && m in w.consumers && n in w.consumers
    requires Critical(w.consumers[m].phase) && Critical(w.consumers[n].phase)
    requires m in w.lock.mutexes && n in w.lock.mutexes
    requires w.lock.mutexes[m].session !in w.lock.dead && w.lock.mutexes[n].session !in w.lock.dead
    ensures m == n
  {
    hide PhaseInv, L.Inv, StoreInv;
    assert ConsumerInv(s, w, m) && ConsumerInv(s, w, n);
    L.OnlyOneLeads(s.lock, w.lock, m, n);
  }

  // ---------- runs without errors or session loss ----------

  ghost predicate CleanEvent(e: Event) {
    match e
    case LockStep(step) => !step.Expires? && !step.Cleans?
    case Client(_, a) => !a.DeleteFails? && (a.HandlesElement? ==> a.adeleteRc >= 0)
    case _ => true
  }

  /** The elements are those from number `low` on. */
  ghost predicate ElementsFrom(s: Setup, w: World, low: nat)
    requires |w.pushed| <= SEQUENCE_LIMIT
  {
    forall i :: 0 <= i < |w.pushed| ==> (s.queue.Name(i) in w.elements <==> low <= i)
  }

  /** The deliveries are the first pushes, in their order. */
  ghost predicate InOrder(s: Setup, w: World)
    requires |w.pushed| <= SEQUENCE_LIMIT
  {
    && |w.delivered| <= |w.pushed|
    && forall i :: 0 <= i < |w.delivered| ==> w.delivered[i] == Delivery(s.queue.Name(i), w.pushed[i])
  }

  /** path leads to the element of number n. */
  ghost predicate LeadsTo(s: Setup, w: World, path: string, n: int)
    requires |w.pushed| <= SEQUENCE_LIMIT
  {
    0 <= n < |w.pushed| && L.NodeAt(s.queue, path) == Some(s.queue.Name(n))
  }

  ghost predicate IsNumbered(s: Setup, w: World, name: string, low: nat)
    requires |w.pushed| <= SEQUENCE_LIMIT
  {
    exists i :: low <= i < |w.pushed| && name == s.queue.Name(i)
  }

  /** Whatever has been listed is still to be delivered, the next one first. */
  ghost predicate Snapshot(s: Setup, w: World, names: Names)
    requires |w.pushed| <= SEQUENCE_LIMIT
  {
    var n := |w.delivered|;
    forall name :: Listed(names, name) ==>
      IsNumbered(s, w, name, n) && n < |w.pushed| && Listed(names, s.queue.Name(n))
  }

  ghost predicate CleanAt(s: Setup, w: World, c: Consumer)
    requires |w.pushed| <= SEQUENCE_LIMIT
  {
    && c.fields.path == Child(s.queue.parent, s.queue.prefix)
    && c.fields.refcnt == (if c.phase.Done? || c.phase.Failed? then 0 else 1)
    && match c.phase
       case Replied(names, _) => Snapshot(s, w, names)
       case Getting(path) => LeadsTo(s, w, path, |w.delivered|)
       case Got(path, value) => LeadsTo(s, w, path, |w.delivered|) && value == Some(w.pushed[|w.delivered|])
       case Deleting(path) => LeadsTo(s, w, path, |w.delivered| - 1) && ElementsFrom(s, w, |w.delivered| - 1)
       case _ => true
  }

  ghost predicate NoneDeleting(w: World) { forall m :: m in w.consumers ==> !w.consumers[m].phase.Deleting? }

  ghost predicate CleanInv(s: Setup, w: World) {
    && |w.pushed| <= SEQUENCE_LIMIT && w.lock.dead == {} && w.late == {} && InOrder(s, w)
    && (NoneDeleting(w) ==> ElementsFrom(s, w, |w.delivered|))
    && forall m :: m in w.consumers ==> CleanAt(s, w, w.consumers[m])
  }

  /** The consumer in the section moves; no other consumer is in it. */
  lemma {:induction false} SectionMoves(s: Setup, w: World, after: World, m: nat)
    requires Inv(s, w) && CleanInv(s, w) && m in w.consumers && Critical(w.consumers[m].phase)
    requires after.lock.dead == {} && after.late == {} && after.consumers.Keys == w.consumers.Keys
    requires after.pushed == w.pushed
    requires forall n :: n in w.consumers && n != m ==>
               after.consumers[n] == w.consumers[n] || after.consumers[n] == Notified(w.consumers[n])
    requires InOrder(s, after) && CleanAt(s, after, after.consumers[m])
    requires !after.consumers[m].phase.Deleting? ==> ElementsFrom(s, after, |after.delivered|)
    ensures CleanInv(s, after)
  {
    hide InOrder, ElementsFrom, ConsumerInv, L.Inv, StoreInv, Snapshot, LeadsTo;
    forall n | n in after.consumers && n != m
      ensures CleanAt(s, after, after.consumers[n])
    {
      if Critical(w.consumers[n].phase) {
        assert m in w.lock.mutexes && n in w.lock.mutexes;
        OneInSection(s, w, m, n);
      }
      assert CleanAt(s, w, w.consumers[n]);
    }
  }

  /** Nothing is being deleted while another one is in the section. */
  lemma {:induction false} SectionSees(s: Setup, w: World, m: nat)
    requires Inv(s, w) && CleanInv(s, w) && m in w.consumers && Critical(w.consumers[m].phase)
    requires !w.consumers[m].phase.Deleting?
    ensures ElementsFrom(s, w, |w.delivered|)
  {
    hide InOrder, ElementsFrom, ConsumerInv, L.Inv, StoreInv, CleanAt;
    forall n | n in w.consumers
      ensures !w.consumers[n].phase.Deleting?
    {
      if Critical(w.consumers[n].phase) {
        assert m in w.lock.mutexes && n in w.lock.mutexes;
        OneInSection(s, w, m, n);
      }
    }
  }

  lemma NamesDiffer(s: Setup, i: nat, j: nat)
    requires i < SEQUENCE_LIMIT && j < SEQUENCE_LIMIT
    ensures s.queue.Name(i) == s.queue.Name(j) <==> i == j
    ensures Before(s.queue.Name(i), s.queue.Name(j)) <==> i < j
  {
    SequenceOrder(s.queue.prefix, i, j);
  }

  // --- the single steps ---

  lemma ListingIsSnapshot(s: Setup, w: World, names: Names)
    requires StoreInv(s, w) && ElementsFrom(s, w, |w.delivered|) && IsListing(names, w.elements)
    ensures Snapshot(s, w, names)
  {
    hide L.Place.Name;
    forall name | Listed(names, name)
      ensures IsNumbered(s, w, name, |w.delivered|) && |w.delivered| < |w.pushed|
      ensures Listed(names, s.queue.Name(|w.delivered|))
    {
      assert IsPushed(s, w.pushed, name, w.elements[name]);
      var i :| 0 <= i < |w.pushed| && i < SEQUENCE_LIMIT && name == s.queue.Name(i);
      assert |w.delivered| <= i;
      assert s.queue.Name(|w.delivered|) in w.elements;
    }
  }

  lemma MinimumIsNext(s: Setup, w: World, names: Names)
    requires |w.pushed| <= SEQUENCE_LIMIT && Snapshot(s, w, names) && Least(names).Some?
    ensures |w.delivered| < |w.pushed| && Least(names) == Some(s.queue.Name(|w.delivered|))
  {
    var n := |w.delivered|;
    LeastIsLeast(names, Least(names));
    assert Listed(names, Least(names).value);
    hide L.Place.Name;
    forall name | Listed(names, name)
      ensures !Before(name, s.queue.Name(n))
    {
      assert IsNumbered(s, w, name, n);
      var i :| n <= i < |w.pushed| && name == s.queue.Name(i);
      NamesDiffer(s, i, n);
    }
    LeastIsLeast(names, Some(s.queue.Name(n)));
  }

  lemma PathLeadsTo(s: Setup, w: World, c: Consumer, n: nat)
    requires s.Valid() && n < |w.pushed| <= SEQUENCE_LIMIT && c.fields.path == Child(s.queue.parent, s.queue.prefix)
    ensures LeadsTo(s, w, Child(Parent(c.fields.path), s.queue.Name(n)), n)
  {
    NameIsFlat(s, n);
    hide L.Place.Name;
    ChildSplits(s.queue.parent, s.queue.prefix);
    ChildSplits(s.queue.parent, s.queue.Name(n));
  }

  lemma ValueOfNext(s: Setup, w: World, n: nat)
    requires StoreInv(s, w) && n < |w.pushed| && s.queue.Name(n) in w.elements
    ensures w.elements[s.queue.Name(n)] == w.pushed[n]
  {
    hide L.Place.Name;
    var name := s.queue.Name(n);
    assert IsPushed(s, w.pushed, name, w.elements[name]);
    var i :| 0 <= i < |w.pushed| && i < SEQUENCE_LIMIT && name == s.queue.Name(i) && w.elements[name] == w.pushed[i];
    NamesDiffer(s, i, n);
  }

  lemma {:induction false} CleanServer(s: Setup, w: World, m: nat, a: ServerAction)
    requires Inv(s, w) && CleanInv(s, w) && m in w.consumers && DoServer(s, w, m, a).Some? && !a.Deletes?
    ensures CleanInv(s, DoServer(s, w, m, a).value)
  {
    hide StoreInv, L.Inv, ElementsFrom, InOrder, L.Place.Name, L.NodeAt;
    var after := DoServer(s, w, m, a).value;
    assert CleanAt(s, w, w.consumers[m]);
    SectionSees(s, w, m);
    if a.Lists? {
      ListingIsSnapshot(s, w, a.names);
      SnapshotIsSame(s, w, after, a.names);
    } else {
      NextIsThere(s, w);
      ValueOfNext(s, w, |w.delivered|);
    }
    SameOrder(s, w, after);
    hide Inv, CleanInv, Snapshot;
    SectionMoves(s, w, after, m);
  }

  lemma NextIsThere(s: Setup, w: World)
    requires |w.pushed| <= SEQUENCE_LIMIT && ElementsFrom(s, w, |w.delivered|)
    ensures |w.delivered| < |w.pushed| ==> s.queue.Name(|w.delivered|) in w.elements
  {
  }

  lemma SnapshotIsSame(s: Setup, w: World, after: World, names: Names)
    requires |w.pushed| <= SEQUENCE_LIMIT && after.pushed == w.pushed && |after.delivered| == |w.delivered|
    ensures Snapshot(s, after, names) == Snapshot(s, w, names)
  {
    forall name
      ensures IsNumbered(s, after, name, |w.delivered|) == IsNumbered(s, w, name, |w.delivered|)
    {
    }
  }

  lemma SameOrder(s: Setup, w: World, after: World)
    requires |w.pushed| <= SEQUENCE_LIMIT && InOrder(s, w)
    requires after.pushed == w.pushed && after.delivered == w.delivered
    ensures InOrder(s, after)
    ensures after.elements == w.elements ==> forall low: nat :: ElementsFrom(s, w, low) ==> ElementsFrom(s, after, low)
  {
  }

  lemma {:induction false} CleanDelete(s: Setup, w: World, m: nat)
    requires Inv(s, w) && CleanInv(s, w) && m in w.consumers && DoServer(s, w, m, Deletes).Some?
    ensures CleanInv(s, DoServer(s, w, m, Deletes).value)
  {
    hide StoreInv, L.Inv, ElementsFrom, InOrder, L.Place.Name, L.NodeAt;
    var after, n := DoServer(s, w, m, Deletes).value, |w.delivered| - 1;
    assert CleanAt(s, w, w.consumers[m]);
    assert after.elements == w.elements - {s.queue.Name(n)};
    FirstIsDeleted(s, w, after, n);
    SameOrder(s, w, after);
    hide Inv, CleanInv;
    SectionMoves(s, w, after, m);
  }

  lemma FirstIsDeleted(s: Setup, w: World, after: World, n: nat)
    requires n < |w.pushed| <= SEQUENCE_LIMIT && ElementsFrom(s, w, n)
    requires after.pushed == w.pushed && after.elements == w.elements - {s.queue.Name(n)}
    ensures ElementsFrom(s, after, n + 1)
  {
    hide L.Place.Name;
    forall i | 0 <= i < |w.pushed|
      ensures s.queue.Name(i) in after.elements <==> n + 1 <= i
    {
      NamesDiffer(s, i, n);
    }
  }

  /** Only the watch changes; what is in order is untouched. */
  lemma {:induction false} CleanIgnores(s: Setup, w: World, m: nat)
    requires Inv(s, w) && CleanInv(s, w) && m in w.consumers && !w.consumers[m].phase.Idle?
    requires DoClient(s, w, m, HandlesChildEvent).Some?
    ensures CleanInv(s, DoClient(s, w, m, HandlesChildEvent).value)
  {
    hide StoreInv, L.Inv, ElementsFrom, InOrder, PhaseInv, CleanAt, ConsumerMove;
    var after, c := DoClient(s, w, m, HandlesChildEvent).value, w.consumers[m];
    assert WatchInv(c) && CleanAt(s, w, c) by {
      InvGivesWatchInv(s, w, m);
    }
    EventIsHandledIff(c);
    SameOrder(s, w, after);
    forall n | n in after.consumers
      ensures CleanAt(s, after, after.consumers[n])
    {
      assert CleanAt(s, w, w.consumers[n]);
      CleanAtIsSame(s, w, after, w.consumers[n]);
      CleanAtIgnoresWatch(s, after, w.consumers[n]);
    }
    if NoneDeleting(after) {
      forall n | n in w.consumers
        ensures !w.consumers[n].phase.Deleting?
      {
        assert after.consumers[n].phase == w.consumers[n].phase;
      }
      assert NoneDeleting(w);
    }
  }

  lemma CleanAtIgnoresWatch(s: Setup, w: World, c: Consumer)
    requires |w.pushed| <= SEQUENCE_LIMIT && CleanAt(s, w, c)
    ensures CleanAt(s, w, c.(watch := NoWatch))
  {
    hide Snapshot, LeadsTo, ElementsFrom;
  }

  lemma {:induction false} CleanClient(s: Setup, w: World, m: nat, a: ClientAction)
    requires Inv(s, w) && CleanInv(s, w) && m in w.consumers && DoClient(s, w, m, a).Some?
    requires CleanEvent(Client(m, a)) && !a.HandlesElement? && !a.HandlesDeleted?
    requires a.HandlesChildEvent? ==> w.consumers[m].phase.Idle?
    ensures CleanInv(s, DoClient(s, w, m, a).value)
  {
    hide StoreInv, L.Inv, ElementsFrom, InOrder, L.Place.Name, L.NodeAt, Least, PhaseInv, CleanAt;
    var after, c := DoClient(s, w, m, a).value, w.consumers[m];
    assert CleanAt(s, w, c) && PhaseInv(s, w.elements, w.pushed, w.delivered, c) by {
      assert ConsumerInv(s, w, m);
    }
    SectionSees(s, w, m);
    CleanClientMeets(s, w, m, a);
    SameOrder(s, w, after);
    hide Inv, CleanInv;
    SectionMoves(s, w, after, m);
  }

  lemma CleanClientMeets(s: Setup, w: World, m: nat, a: ClientAction)
    requires s.Valid() && |w.pushed| <= SEQUENCE_LIMIT && m in w.consumers && DoClient(s, w, m, a).Some?
    requires CleanAt(s, w, w.consumers[m]) && PhaseInv(s, w.elements, w.pushed, w.delivered, w.consumers[m])
    requires CleanEvent(Client(m, a)) && !a.HandlesElement? && !a.HandlesDeleted?
    requires a.HandlesChildEvent? ==> w.consumers[m].phase.Idle?
    ensures CleanAt(s, DoClient(s, w, m, a).value, DoClient(s, w, m, a).value.consumers[m])
    ensures !DoClient(s, w, m, a).value.consumers[m].phase.Deleting?
  {
    hide ElementsFrom, L.Place.Name, L.NodeAt, Least, IsListing;
    var after, c := DoClient(s, w, m, a).value, w.consumers[m];
    if a.HandlesMinimum? && Least(c.phase.names).Some? {
      MinimumIsNext(s, w, c.phase.names);
      PathLeadsTo(s, after, c, |w.delivered|);
    }
    hide Snapshot;
  }

  lemma {:induction false} CleanElement(s: Setup, w: World, m: nat, adeleteRc: int)
    requires Inv(s, w) && CleanInv(s, w) && m in w.consumers && DoClient(s, w, m, HandlesElement(adeleteRc)).Some?
    requires adeleteRc >= 0
    ensures CleanInv(s, DoClient(s, w, m, HandlesElement(adeleteRc)).value)
  {
    hide StoreInv, L.Inv, ElementsFrom, InOrder, L.Place.Name, L.NodeAt;
    var after, c := DoClient(s, w, m, HandlesElement(adeleteRc)).value, w.consumers[m];
    assert CleanAt(s, w, c) && ConsumerInv(s, w, m);
    SectionSees(s, w, m);
    OrderGoesOn(s, w, after);
    hide Inv, CleanInv;
    SectionMoves(s, w, after, m);
  }

  lemma OrderGoesOn(s: Setup, w: World, after: World)
    requires |w.pushed| <= SEQUENCE_LIMIT && InOrder(s, w) && |w.delivered| < |w.pushed| && after.pushed == w.pushed
    requires after.delivered == w.delivered + [Delivery(s.queue.Name(|w.delivered|), w.pushed[|w.delivered|])]
    ensures InOrder(s, after)
    ensures after.elements == w.elements && ElementsFrom(s, w, |w.delivered|) ==> ElementsFrom(s, after, |w.delivered|)
  {
  }

  lemma {:induction false} CleanUnlock(s: Setup, w: World, m: nat, connected: bool, adeleteRc: int)
    requires Inv(s, w) && CleanInv(s, w) && m in w.consumers
    requires DoClient(s, w, m, HandlesDeleted(connected, adeleteRc)).Some?
    ensures CleanInv(s, DoClient(s, w, m, HandlesDeleted(connected, adeleteRc)).value)
  {
    hide StoreInv, L.Inv, L.Do, ElementsFrom, InOrder, L.Place.Name, L.NodeAt;
    var after, c := DoClient(s, w, m, HandlesDeleted(connected, adeleteRc)).value, w.consumers[m];
    assert CleanAt(s, w, c) && ConsumerInv(s, w, m);
    SectionSees(s, w, m);
    UnlockMovesOne(s, w, m, connected, adeleteRc);
    SameOrder(s, w, after);
    hide Inv, CleanInv;
    SectionMoves(s, w, after, m);
  }

  lemma CleanPush(s: Setup, w: World, value: string)
    requires CleanInv(s, w) && Do(s, w, Pushes(value)).Some?
    ensures CleanInv(s, Do(s, w, Pushes(value)).value)
  {
    assert |w.delivered| <= |w.pushed| < SEQUENCE_LIMIT;
    hide ElementsFrom, InOrder, L.Place.Name, L.NodeAt, CleanAt;
    var after := Do(s, w, Pushes(value)).value;
    PushGoesOn(s, w, after, value);
    forall m | m in after.consumers
      ensures CleanAt(s, after, after.consumers[m])
      ensures after.consumers[m].phase.Deleting? <==> w.consumers[m].phase.Deleting?
    {
      assert CleanAt(s, w, w.consumers[m]);
      CleanPushMeets(s, w, after, value, w.consumers[m]);
    }
    if NoneDeleting(after) {
      forall m | m in w.consumers
        ensures !w.consumers[m].phase.Deleting?
      {
        assert after.consumers[m].phase.Deleting? <==> w.consumers[m].phase.Deleting?;
      }
      assert NoneDeleting(w);
    }
  }

  lemma PushGoesOn(s: Setup, w: World, after: World, value: string)
    requires |w.pushed| < SEQUENCE_LIMIT && InOrder(s, w) && after.delivered == w.delivered
    requires after.pushed == w.pushed + [value] && after.elements == w.elements[s.queue.Name(|w.pushed|) := value]
    ensures InOrder(s, after)
    ensures forall low: nat :: low <= |w.pushed| && ElementsFrom(s, w, low) ==> ElementsFrom(s, after, low)
  {
    hide L.Place.Name;
    forall low: nat, i | low <= |w.pushed| && ElementsFrom(s, w, low) && 0 <= i < |after.pushed|
      ensures s.queue.Name(i) in after.elements <==> low <= i
    {
      NamesDiffer(s, i, |w.pushed|);
    }
  }

  lemma {:induction false} CleanPushMeets(s: Setup, w: World, after: World, value: string, c: Consumer)
    requires |w.pushed| < SEQUENCE_LIMIT && InOrder(s, w) && CleanAt(s, w, c) && after.delivered == w.delivered
    requires after.pushed == w.pushed + [value] && after.elements == w.elements[s.queue.Name(|w.pushed|) := value]
    ensures CleanAt(s, after, Notified(c)) && (Notified(c).phase.Deleting? <==> c.phase.Deleting?)
  {
    hide L.Place.Name, L.NodeAt;
    PushGoesOn(s, w, after, value);
    if c.phase.Replied? {
      forall name | Listed(c.phase.names, name)
        ensures IsNumbered(s, after, name, |w.delivered|)
      {
        assert IsNumbered(s, w, name, |w.delivered|);
        var i :| |w.delivered| <= i < |w.pushed| && name == s.queue.Name(i);
        assert i < |after.pushed|;
      }
    }
    hide IsNumbered, ElementsFrom;
  }

  /** Neither a new contender nor a step of the lock touches what is in order. */
  lemma {:induction false} CleanLock(s: Setup, w: World, e: L.Event)
    requires Inv(s, w) && CleanInv(s, w) && DoLock(s, w, e).Some? && CleanEvent(LockStep(e))
    ensures CleanInv(s, DoLock(s, w, e).value)
  {
    hide L.Do, L.Inv, L.Proceeds, AfterLock, StoreInv, ElementsFrom, InOrder, CleanAt, PhaseInv, Coupled;
    var after := DoLock(s, w, e).value;
    L.NobodyComes(s.lock, w.lock, e);
    SameOrder(s, w, after);
    forall m | m in after.consumers
      ensures CleanAt(s, after, after.consumers[m])
      ensures after.consumers[m].phase.Deleting? <==> w.consumers[m].phase.Deleting?
    {
      assert CleanAt(s, w, w.consumers[m]) && ConsumerInv(s, w, m);
      L.MutexProceeds(s.lock, w.lock, e, m);
      CleanLockMeets(s, w, after, w.consumers[m], w.lock.mutexes[m], after.lock.mutexes[m], e);
    }
    if NoneDeleting(after) {
      forall m | m in w.consumers
        ensures !w.consumers[m].phase.Deleting?
      {
        assert after.consumers[m].phase.Deleting? <==> w.consumers[m].phase.Deleting?;
      }
      assert NoneDeleting(w);
    }
  }

  lemma CleanLockMeets(s: Setup, w: World, after: World, c: Consumer, x: L.Mutex, y: L.Mutex, e: L.Event)
    requires |w.pushed| <= SEQUENCE_LIMIT && CleanAt(s, w, c) && Coupled(c, x) && L.Proceeds(x, y, e)
    requires CleanEvent(LockStep(e))
    requires after.pushed == w.pushed && after.delivered == w.delivered && after.elements == w.elements
    ensures var d := AfterLock(c, x, y, e);
      CleanAt(s, after, d) && (d.phase.Deleting? <==> c.phase.Deleting?)
  {
    hide L.Place.Name, L.NodeAt;
    if c.phase.Replied? {
      SnapshotIsSame(s, w, after, c.phase.names);
    }
    hide Snapshot;
  }

  lemma {:induction false} CleanPop(s: Setup, w: World, m: nat, session: nat)
    requires Inv(s, w) && CleanInv(s, w) && Do(s, w, Pops(m, session)).Some?
    ensures CleanInv(s, Do(s, w, Pops(m, session)).value)
  {
    hide L.Do, L.Inv, StoreInv, ElementsFrom, InOrder, CleanAt, ConsumerInv;
    var after := Do(s, w, Pops(m, session)).value;
    LockAddsOne(s, w, m, session);
    SameOrder(s, w, after);
    forall n | n in after.consumers
      ensures CleanAt(s, after, after.consumers[n])
    {
      if n == m {
        WaiterIsClean(s, after, after.consumers[m]);
      } else {
        assert CleanAt(s, w, w.consumers[n]);
        CleanAtIsSame(s, w, after, w.consumers[n]);
      }
    }
    if NoneDeleting(after) {
      forall n | n in w.consumers
        ensures !w.consumers[n].phase.Deleting?
      {
        assert after.consumers[n] == w.consumers[n];
      }
      assert NoneDeleting(w);
    }
  }

  lemma WaiterIsClean(s: Setup, w: World, c: Consumer)
    requires |w.pushed| <= SEQUENCE_LIMIT
    requires c == Consumer(Fields(Child(s.queue.parent, s.queue.prefix), "", false, 1), Waiting, NoWatch)
    ensures CleanAt(s, w, c)
  {
  }

  lemma CleanAtIsSame(s: Setup, w: World, after: World, c: Consumer)
    requires |w.pushed| <= SEQUENCE_LIMIT && CleanAt(s, w, c)
    requires after.pushed == w.pushed && after.delivered == w.delivered && after.elements == w.elements
    ensures CleanAt(s, after, c)
  {
    hide L.Place.Name, L.NodeAt;
    if c.phase.Replied? {
      SnapshotIsSame(s, w, after, c.phase.names);
    }
    hide Snapshot;
  }

  lemma {:induction false} CleanStepKeeps(s: Setup, w: World, e: Event)
    requires Inv(s, w) && CleanInv(s, w) && Do(s, w, e).Some? && CleanEvent(e)
    ensures CleanInv(s, Do(s, w, e).value)
  {
    hide Inv, CleanInv, DoLock, DoServer, DoClient;
    if e.Pushes? {
      CleanPush(s, w, e.value);
    } else if e.Pops? {
      CleanPop(s, w, e.m, e.session);
    } else if e.LockStep? {
      CleanLock(s, w, e.step);
    } else if e.Server? {
      if e.server.Deletes? {
        CleanDelete(s, w, e.m);
      } else {
        CleanServer(s, w, e.m, e.server);
      }
    } else if e.LateDeletion? {
      NothingIsLate(s, w);
    } else if e.client.HandlesElement? {
      CleanElement(s, w, e.m, e.client.adeleteRc);
    } else if e.client.HandlesDeleted? {
      CleanUnlock(s, w, e.m, e.client.connected, e.client.adeleteRc);
    } else if e.client.HandlesChildEvent? && !w.consumers[e.m].phase.Idle? {
      CleanIgnores(s, w, e.m);
    } else {
      CleanClient(s, w, e.m, e.client);
    }
  }

  lemma NothingIsLate(s: Setup, w: World)
    requires CleanInv(s, w)
    ensures w.late == {}
  {
  }

  ghost predicate CleanEvents(events: seq<Event>) { forall k :: 0 <= k < |events| ==> CleanEvent(events[k]) }

  lemma {:induction false} CleanExecutionKeeps(s: Setup, events: seq<Event>)
    requires s.Valid() && Execute(s, events).Some? && CleanEvents(events)
    ensures CleanInv(s, Execute(s, events).value)
    decreases |events|
  {
    if events != [] {
      hide Inv, CleanInv, Do;
      var init := events[..|events| - 1];
      ExecutionKeepsInvariant(s, init);
      CleanExecutionKeeps(s, init);
      CleanStepKeeps(s, Execute(s, init).value, events[|events| - 1]);
    }
  }

  /** Queue safety. In a run in which no session is lost and no deletion fails,
      with any number of consumers, the deliveries are the pushes in their order,
      each once: the k-th delivery is the k-th push. What is left is what was not
      delivered, and at most the last delivery, while it is being deleted. */
  lemma {:induction false} CleanRunsAreFifo(s: Setup, events: seq<Event>, w: World)
    requires s.Valid() && Execute(s, events) == Some(w) && CleanEvents(events)
    ensures |w.delivered| <= |w.pushed| <= SEQUENCE_LIMIT
    ensures forall i :: 0 <= i < |w.delivered| ==> w.delivered[i] == Delivery(s.queue.Name(i), w.pushed[i])
    ensures forall i :: |w.delivered| <= i < |w.pushed| ==> s.queue.Name(i) in w.elements
    ensures forall i :: 0 <= i < |w.delivered| - 1 ==> s.queue.Name(i) !in w.elements
  {
    CleanExecutionKeeps(s, events);
    hide L.Place.Name, L.NodeAt, Snapshot;
    if m :| m in w.consumers && w.consumers[m].phase.Deleting? {
      assert CleanAt(s, w, w.consumers[m]);
    }
  }

  /** Deliveries come in strictly increasing order, across all consumers. */
  lemma {:induction false} DeliveriesIncrease(s: Setup, events: seq<Event>, w: World, i: nat, j: nat)
    requires s.Valid() && Execute(s, events) == Some(w) && CleanEvents(events)
    requires i < j < |w.delivered|
    ensures Before(w.delivered[i].name, w.delivered[j].name)
  {
    CleanRunsAreFifo(s, events, w);
    NamesDiffer(s, i, j);
  }

  /** In such a run every consumer is released exactly once, at its end. */
  lemma {:induction false} ReleasedOnce(s: Setup, events: seq<Event>, w: World, m: nat)
    requires s.Valid() && Execute(s, events) == Some(w) && CleanEvents(events) && m in w.consumers
    ensures var c := w.consumers[m]; c.fields.refcnt == if c.phase.Done? || c.phase.Failed? then 0 else 1
  {
    CleanExecutionKeeps(s, events);
    assert CleanAt(s, w, w.consumers[m]);
  }
}
