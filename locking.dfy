/**
 * The lock abstractions that the repair lock factory works against: repair
 * resources, distributed locks, lock exceptions, and the LockFactory it calls.
 *
 * The LockFactory implementation (the CAS writes, leases, the expiry of its
 * failure cache, preemption) is not part of this model.  The factory is an
 * oracle instead: it fixes, per (datacenter, resource) key, whether enough
 * nodes are up for locking, whether a failure is cached, and whether
 * tryLock grants a lock, returns null or throws; and per lock whether
 * closing it throws.  The factory keeps the set of locks it holds and
 * records every call it receives, so that a caller's effect on it can be
 * stated exactly.
 */
module Locking {
  import opened Common

  /** A node's UUID. */
  type NodeId = nat

  /** The lock metadata map (`Map<String, String>`). */
  type Metadata = map<string, string>

  /** The (datacenter, resource name) pair a lock is taken on. */
  datatype LockKey = LockKey(dataCenter: string, resource: string)

  /**
   * A RepairResource: a datacenter and the name from which its lock
   * resource names are derived.
   */
  datatype RepairResource = RepairResource(dataCenter: string, name: string)

  /** How a resource's lock name is derived from the number of locks per resource (getResourceName). */
  type ResourceNaming = (RepairResource, int) -> string

  /** The LockException values of this model; identity of exception objects is value equality. */
  datatype LockException =
    | NotLockable(resource: RepairResource)          // "<resource> not lockable. Repair will be retried later."
    | NoDataCenters                                   // "No datacenters to lock for ..."
    | ResourcesExhausted(resource: RepairResource)   // "Lock resources exhausted for <resource>"
    | Raised(reason: string)                          // thrown by the lock factory itself

  /** A lock handed out by the factory; `id` stands for the identity of the lock object. */
  datatype DistributedLock = DistributedLock(id: nat, key: LockKey)

  /** What the factory's tryLock does for a key. */
  datatype TryAnswer = Grant | Refuse | Fail(failure: LockException)

  /** What a tryLock call returned: a lock, null, or an exception. */
  datatype TryResult = Acquired(lock: DistributedLock) | NoLock | Threw(failure: LockException)

  /** A call received by the lock factory (closing a lock counts as a call on the factory that issued it). */
  datatype Call =
    | SufficiencyCheck(key: LockKey)
    | CacheLookup(key: LockKey)
    | TryLockCall(node: NodeId, key: LockKey, priority: int, metadata: Metadata)
    | CloseCall(lock: DistributedLock)

  /** The answers of the lock factory, which this model does not compute. */
  datatype Oracle = Oracle(
    sufficientNodes: LockKey -> bool,
    cachedFailures: map<LockKey, LockException>,
    answer: LockKey -> TryAnswer,
    releaseThrows: DistributedLock -> bool)

  /** The part of the lock factory that its callers change: held locks, calls received, next lock identity. */
  datatype FactoryState = FactoryState(held: set<DistributedLock>, calls: seq<Call>, nextId: nat)

  /** Every held lock was handed out earlier, so a newly created lock is never already held. */
  ghost predicate StateValid(s: FactoryState) {
    forall l :: l in s.held ==> l.id < s.nextId
  }

  /** The calls a factory received between two of its states. */
  function NewCalls(before: FactoryState, after: FactoryState): seq<Call>
    requires before.calls <= after.calls
  {
    after.calls[|before.calls|..]
  }

  function Elems(locks: seq<DistributedLock>): set<DistributedLock> {
    set l | l in locks
  }

  lemma ElemsAppend(locks: seq<DistributedLock>, lock: DistributedLock)
    ensures Elems(locks + [lock]) == Elems(locks) + {lock}
  {
  }

  /** One tryLock call: a granted key yields a new lock, which the factory then holds. */
  function TryLockStep(o: Oracle, s: FactoryState, node: NodeId, key: LockKey, priority: int, metadata: Metadata)
    : (TryResult, FactoryState)
  {
    var logged := s.(calls := s.calls + [TryLockCall(node, key, priority, metadata)]);
    match o.answer(key)
    case Grant =>
      var lock := DistributedLock(s.nextId, key);
      (Acquired(lock), logged.(held := s.held + {lock}, nextId := s.nextId + 1))
    case Refuse => (NoLock, logged)
    case Fail(e) => (Threw(e), logged)
  }

  /** The locks among `locks` whose close does not throw. */
  function ReleasedOk(o: Oracle, locks: seq<DistributedLock>): set<DistributedLock> {
    set l | l in locks && !o.releaseThrows(l)
  }

  function ReleaseCalls(locks: seq<DistributedLock>): seq<Call> {
    seq(|locks|, i requires 0 <= i < |locks| => CloseCall(locks[i]))
  }

  /** The factory after closing each of `locks` in order, ignoring the closes that throw. */
  function AfterReleaseAll(o: Oracle, s: FactoryState, locks: seq<DistributedLock>): FactoryState {
    s.(held := s.held - ReleasedOk(o, locks), calls := s.calls + ReleaseCalls(locks))
  }

  /** Closing the locks of an empty list changes nothing. */
  lemma ReleaseNothing(o: Oracle, s: FactoryState)
    ensures AfterReleaseAll(o, s, []) == s
  {
    assert ReleaseCalls([]) == [];
    assert s.calls + [] == s.calls;
  }

  /**
   * Closing every lock of a list: the factory receives one close per lock,
   * in list order, whether or not earlier closes threw; every lock whose
   * close did not throw is no longer held, and nothing else changes.
   */
  lemma {:induction false} ReleaseAllClosesEveryLock(o: Oracle, s: FactoryState, locks: seq<DistributedLock>)
    ensures var s' := AfterReleaseAll(o, s, locks);
      && |s'.calls| == |s.calls| + |locks|
      && s'.calls[..|s.calls|] == s.calls
      && (forall i :: 0 <= i < |locks| ==> s'.calls[|s.calls| + i] == CloseCall(locks[i]))
      && (forall l :: l in locks && !o.releaseThrows(l) ==> l !in s'.held)
      && (forall l :: l in s.held && l !in locks ==> l in s'.held)
      && s'.held <= s.held
      && s'.nextId == s.nextId
  {
    var s' := AfterReleaseAll(o, s, locks);
    forall i | 0 <= i < |locks| ensures s'.calls[|s.calls| + i] == CloseCall(locks[i]) {
      assert s'.calls[|s.calls| + i] == ReleaseCalls(locks)[i];
    }
  }

  /**
   * The lock factory the repair lock factory calls.  Its answers come from
   * `oracle`; the methods record each call and update the held locks.
   */
  class LockFactory {
    const oracle: Oracle
    var held: set<DistributedLock>
    var calls: seq<Call>
    var nextId: nat

    function State(): FactoryState
      reads this
    {
      FactoryState(held, calls, nextId)
    }

    ghost predicate Valid()
      reads this
    {
      StateValid(State())
    }

    constructor (oracle: Oracle)
      ensures Valid()
      ensures held == {} && calls == [] && nextId == 0
    {
      this.oracle := oracle;
      held, calls, nextId := {}, [], 0;
    }

    /** sufficientNodesForLocking(dataCenter, resource) */
    method SufficientNodesForLocking(dataCenter: string, resource: string) returns (ok: bool)
      modifies this
      ensures ok == oracle.sufficientNodes(LockKey(dataCenter, resource))
      ensures State() == old(State()).(calls := old(calls) + [SufficiencyCheck(LockKey(dataCenter, resource))])
    {
      ok := oracle.sufficientNodes(LockKey(dataCenter, resource));
      calls := calls + [SufficiencyCheck(LockKey(dataCenter, resource))];
    }

    /** getCachedFailure(dataCenter, resource) */
    method GetCachedFailure(dataCenter: string, resource: string) returns (cached: Option<LockException>)
      modifies this
      ensures var key := LockKey(dataCenter, resource);
        cached == if key in oracle.cachedFailures then Some(oracle.cachedFailures[key]) else None
      ensures State() == old(State()).(calls := old(calls) + [CacheLookup(LockKey(dataCenter, resource))])
    {
      var key := LockKey(dataCenter, resource);
      cached := if key in oracle.cachedFailures then Some(oracle.cachedFailures[key]) else None;
      calls := calls + [CacheLookup(key)];
    }

    /** tryLock(nodeID, dataCenter, resource, priority, metadata) */
    method TryLock(node: NodeId, dataCenter: string, resource: string, priority: int, metadata: Metadata)
      returns (result: TryResult)
      modifies this
      ensures (result, State()) == TryLockStep(oracle, old(State()), node, LockKey(dataCenter, resource), priority, metadata)
      ensures old(Valid()) ==> Valid()
    {
      var key := LockKey(dataCenter, resource);
      calls := calls + [TryLockCall(node, key, priority, metadata)];
      match oracle.answer(key)
      case Grant =>
        var lock := DistributedLock(nextId, key);
        held := held + {lock};
        nextId := nextId + 1;
        result := Acquired(lock);
      case Refuse =>
        result := NoLock;
      case Fail(e) =>
        result := Threw(e);
    }

    /** DistributedLock.close() on a lock of this factory; `threw` tells whether close threw. */
    method CloseLock(lock: DistributedLock) returns (threw: bool)
      modifies this
      ensures threw == oracle.releaseThrows(lock)
      ensures State() == old(State()).(
        held := if threw then old(held) else old(held) - {lock},
        calls := old(calls) + [CloseCall(lock)])
    {
      threw := oracle.releaseThrows(lock);
      if !threw {
        held := held - {lock};
      }
      calls := calls + [CloseCall(lock)];
    }
  }
}
