/** A sensor: its reference count, its lock, and the last known values that it
    owns (rb_sensor.c), and what a worker does with it (main.c). */
module RbSensor {
  import opened Wrappers
  import opened Polling
  import opened ValueHeap
  import opened PollEngine

  /** What the sharing protocol reads and writes of a sensor. */
  datatype Shared = Shared(refcnt: int, locked: bool, destroyed: bool)

  function Gotten(s: Shared): Shared { s.(refcnt := s.refcnt + 1) }

  function PutBack(s: Shared): Shared { s.(refcnt := s.refcnt - 1, destroyed := s.destroyed || s.refcnt == 1) }

  function Locked(s: Shared): Shared { s.(locked := true) }

  function Unlocked(s: Shared): Shared { s.(locked := false) }

  class Sensor {
    const engine: Engine
    var refcnt: int
    var locked: bool
    ghost var destroyed: bool
    ghost var polls: seq<Poll>

    /** A sensor knows and has sent what a run over all its polls leads to. One
        that is gone has left nothing in memory. */
    ghost predicate Valid()
      reads this, engine, engine.memory, engine.lastKnown, engine.deps
    {
      if destroyed then engine.memory.store == map[]
      else engine.Valid() && Follows(engine.cfg, polls, engine.Known(), engine.sent)
    }

    ghost function State(): Shared
      reads this
    {
      Shared(refcnt, locked, destroyed)
    }

    /** parse_rb_sensor: the first reference belongs to who asked for the sensor. */
    constructor (cfg: Config)
      requires cfg.Valid()
      ensures Valid() && State() == Shared(1, false, false)
      ensures engine.cfg == cfg && polls == []
      ensures fresh(engine) && fresh(engine.memory) && fresh(engine.lastKnown) && fresh(engine.deps)
    {
      engine := new Engine(cfg);
      refcnt, locked, destroyed, polls := 1, false, false, [];
    }

    /** rb_sensor_get */
    method Get()
      modifies this`refcnt
      ensures State() == Gotten(old(State()))
    {
      refcnt := refcnt + 1;
    }

    /** rb_sensor_put: who puts the last reference destroys the sensor. */
    method Put()
      requires Valid() && !destroyed && refcnt > 0
      modifies this`refcnt, this`destroyed, engine.memory
      ensures Valid() && State() == PutBack(old(State()))
    {
      refcnt := refcnt - 1;
      if refcnt == 0 {
        SensorDone(engine.memory, engine.lastKnown);
        destroyed := true;
      }
    }

    /** rb_sensor_trylock */
    method TryLock() returns (rc: int)
      modifies this`locked
      ensures rc == 0 <==> !old(locked)
      ensures State() == Locked(old(State()))
    {
      if locked {
        rc := 16;
      } else {
        locked := true;
        rc := 0;
      }
    }

    /** rb_sensor_unlock */
    method Unlock()
      modifies this`locked
      ensures State() == Unlocked(old(State()))
    {
      locked := false;
    }

    /** worker_process_sensor, given what the outside answers to this poll: with
        the lock the sensor is polled once, without it nothing but the reference
        changes. Either way the sensor still follows its polls. */
    method WorkerProcess(poll: Poll)
      requires Valid() && !destroyed && refcnt > 0 && |poll.inputs| == |engine.cfg.monitors|
      modifies this, engine`sent, engine.memory, engine.lastKnown
      ensures Valid() && State() == PutBack(old(State()))
      ensures polls == if old(locked) then old(polls) else old(polls) + [poll]
      ensures old(locked) ==> engine.sent == old(engine.sent)
    {
      hide Engine.Valid, Engine.Known, PollOnce, Follows;
      var rc := TryLock();
      if rc != 0 {
        Put();
        return;
      }
      FollowsOnce(engine.cfg, polls, engine.Known(), engine.sent, poll);
      var _ := engine.ProcessMonitorsArray(poll);
      polls := polls + [poll];
      Unlock();
      Put();
    }
  }

  /** sensor_done: free every last known value. Nothing else was in memory, and
      nothing is left. */
  method SensorDone(memory: Memory, lastKnown: array<Option<Ref>>)
    requires memory.Valid() && Owned(memory.store, lastKnown[..])
    modifies memory
    ensures memory.Valid() && memory.store == map[]
    ensures memory.freed == old(memory.freed) + old(memory.store).Keys
  {
    hide Owned, WellFormed, Footprint, AllDenoted;
    ghost var roots, all := lastKnown[..], memory.store.Keys;
    for i := 0 to lastKnown.Length
      invariant memory.Valid() && Owned(memory.store, roots) && |roots| == lastKnown.Length
      invariant forall k :: 0 <= k < |roots| ==> roots[k] == if k < i then None else lastKnown[k]
      invariant memory.store.Keys <= all && memory.freed == old(memory.freed) + (all - memory.store.Keys)
    {
      if lastKnown[i].Some? {
        ghost var s := memory.store;
        RootIsWhole(s, roots, i);
        memory.Done(lastKnown[i].value);
        OwnedAfterDone(s, memory.store, roots, i);
        roots := roots[i := None];
      }
    }
    NothingOwned(memory.store, roots);
  }

  lemma RootIsWhole(s: Store, roots: Roots, i: nat)
    requires Owned(s, roots) && i < |roots| && roots[i].Some?
    ensures WellFormed(s, roots[i].value) && Footprint(s, roots[i].value) <= s.Keys
  {
    hide WellFormed, Footprint;
    assert Rooted(s, roots[i]);
    PartIsLive(s, roots[i]);
  }

  lemma NothingOwned(s: Store, roots: Roots)
    requires Owned(s, roots) && forall k :: 0 <= k < |roots| ==> roots[k] == None
    ensures s == map[]
  {
    assert forall r :: r !in s;
  }
}
