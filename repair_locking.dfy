/**
 * RepairLockFactoryImpl: the all-or-nothing acquisition of the locks of a
 * set of repair resources.
 *
 * getLock works in stages, cheapest first: the admissibility check of every
 * resource, the rejection of an empty resource set, the cached-failure
 * check, and then one tryLock per resource, with the locks acquired so far
 * kept in a TemporaryLockHolder that closes them all when a later step
 * fails.  The methods below follow the Java code; GetLockSpec states the
 * outcome of a whole call in closed form, and the lemmas at the end prove
 * the properties the repair scheduler relies on from it.
 *
 * A Java `Set<RepairResource>` is iterated in some order; the model takes
 * that order as the order of the sequence `repairResources`.
 */
module RepairLocking {
  import opened Common
  import opened Locking

  const LOCKS_PER_RESOURCE: int := 1

  /** The key every lock-factory call for `r` uses. */
  function KeyOf(r: RepairResource, naming: ResourceNaming): (k: LockKey)
    ensures k.dataCenter == r.dataCenter && k.resource == naming(r, LOCKS_PER_RESOURCE)
  {
    LockKey(r.dataCenter, naming(r, LOCKS_PER_RESOURCE))
  }

  /** What getLock returns: the lock collection, or the LockException it throws. */
  datatype LockResult = Locked(locks: seq<DistributedLock>) | Failed(error: LockException)

  // ---------------------------------------------------------------------
  // The specification of one getLock call

  /** The index of the first resource that fails the admissibility check, or |rs| if none does. */
  function FirstNotLockable(o: Oracle, rs: seq<RepairResource>, naming: ResourceNaming): (k: nat)
    ensures k <= |rs|
    ensures forall i :: 0 <= i < k ==> o.sufficientNodes(KeyOf(rs[i], naming))
    ensures k < |rs| ==> !o.sufficientNodes(KeyOf(rs[k], naming))
  {
    if rs == [] || !o.sufficientNodes(KeyOf(rs[0], naming)) then 0
    else 1 + FirstNotLockable(o, rs[1..], naming)
  }

  /** The index of the first resource with a cached failure, or |rs| if none has one. */
  function FirstCachedFailure(o: Oracle, rs: seq<RepairResource>, naming: ResourceNaming): (k: nat)
    ensures k <= |rs|
    ensures forall i :: 0 <= i < k ==> KeyOf(rs[i], naming) !in o.cachedFailures
    ensures k < |rs| ==> KeyOf(rs[k], naming) in o.cachedFailures
  {
    if rs == [] || KeyOf(rs[0], naming) in o.cachedFailures then 0
    else 1 + FirstCachedFailure(o, rs[1..], naming)
  }

  /** The index of the first resource whose tryLock does not grant a lock, or |rs| if all do. */
  function FirstNotGranted(o: Oracle, rs: seq<RepairResource>, naming: ResourceNaming): (k: nat)
    ensures k <= |rs|
    ensures forall i :: 0 <= i < k ==> o.answer(KeyOf(rs[i], naming)).Grant?
    ensures k < |rs| ==> !o.answer(KeyOf(rs[k], naming)).Grant?
  {
    if rs == [] || !o.answer(KeyOf(rs[0], naming)).Grant? then 0
    else 1 + FirstNotGranted(o, rs[1..], naming)
  }

  function SufficiencyChecks(rs: seq<RepairResource>, naming: ResourceNaming, n: nat): seq<Call>
    requires n <= |rs|
  {
    seq(n, i requires 0 <= i < n => SufficiencyCheck(KeyOf(rs[i], naming)))
  }

  function CacheLookups(rs: seq<RepairResource>, naming: ResourceNaming, n: nat): seq<Call>
    requires n <= |rs|
  {
    seq(n, i requires 0 <= i < n => CacheLookup(KeyOf(rs[i], naming)))
  }

  function TryLockCalls(node: NodeId, rs: seq<RepairResource>, naming: ResourceNaming, metadata: Metadata, priority: int, n: nat)
    : seq<Call>
    requires n <= |rs|
  {
    seq(n, i requires 0 <= i < n => TryLockCall(node, KeyOf(rs[i], naming), priority, metadata))
  }

  /** The locks the factory hands out, in order, for the first n resources, starting at identity firstId. */
  function NewLocks(firstId: nat, rs: seq<RepairResource>, naming: ResourceNaming, n: nat): seq<DistributedLock>
    requires n <= |rs|
  {
    seq(n, i requires 0 <= i < n => DistributedLock(firstId + i, KeyOf(rs[i], naming)))
  }

  /** The exception that ends the acquisition at resource r, when its tryLock does not grant. */
  function AcquisitionFailure(o: Oracle, r: RepairResource, naming: ResourceNaming): LockException {
    match o.answer(KeyOf(r, naming))
    case Fail(e) => e
    case _ => ResourcesExhausted(r)
  }

  /**
   * The acquisition stage: tryLock for each resource in order until one is
   * not granted; then every lock acquired so far is closed.
   */
  function AcquireSpec(o: Oracle, s: FactoryState, node: NodeId, rs: seq<RepairResource>, naming: ResourceNaming,
                       metadata: Metadata, priority: int): (LockResult, FactoryState)
  {
    var k := FirstNotGranted(o, rs, naming);
    var acquired := NewLocks(s.nextId, rs, naming, k);
    var tries := if k < |rs| then k + 1 else k;
    var tried := FactoryState(s.held + Elems(acquired),
                              s.calls + TryLockCalls(node, rs, naming, metadata, priority, tries),
                              s.nextId + k);
    if k == |rs| then (Locked(acquired), tried)
    else (Failed(AcquisitionFailure(o, rs[k], naming)), AfterReleaseAll(o, tried, acquired))
  }

  /** The result of getLock and the lock factory's state afterwards. */
  function GetLockSpec(o: Oracle, s: FactoryState, node: NodeId, rs: seq<RepairResource>, naming: ResourceNaming,
                       metadata: Metadata, priority: int): (LockResult, FactoryState)
  {
    var n := |rs|;
    var bad := FirstNotLockable(o, rs, naming);
    if bad < n then
      (Failed(NotLockable(rs[bad])), s.(calls := s.calls + SufficiencyChecks(rs, naming, bad + 1)))
    else if n == 0 then
      (Failed(NoDataCenters), s)
    else
      var checked := s.(calls := s.calls + SufficiencyChecks(rs, naming, n));
      var cached := FirstCachedFailure(o, rs, naming);
      if cached < n then
        (Failed(o.cachedFailures[KeyOf(rs[cached], naming)]),
         checked.(calls := checked.calls + CacheLookups(rs, naming, cached + 1)))
      else
        AcquireSpec(o, checked.(calls := checked.calls + CacheLookups(rs, naming, n)), node, rs, naming, metadata, priority)
  }

  // ---------------------------------------------------------------------
  // The implementation

  /** The locks acquired so far in one acquisition, closed together if it fails. */
  class TemporaryLockHolder {
    var temporaryLocks: seq<DistributedLock>

    constructor ()
      ensures temporaryLocks == []
    {
      temporaryLocks := [];
    }

    method Add(lock: DistributedLock)
      modifies this
      ensures temporaryLocks == old(temporaryLocks) + [lock]
    {
      temporaryLocks := temporaryLocks + [lock];
    }

    /** Hands the locks over to the caller and empties the holder, so that close releases none of them. */
    method GetAndClear() returns (allLocks: seq<DistributedLock>)
      modifies this
      ensures allLocks == old(temporaryLocks)
      ensures temporaryLocks == []
    {
      allLocks := temporaryLocks;
      temporaryLocks := [];
    }

    /** Closes every held lock in order; a close that throws is ignored and the next lock is still closed. */
    method Close(lockFactory: LockFactory)
      modifies lockFactory
      ensures lockFactory.State() == AfterReleaseAll(lockFactory.oracle, old(lockFactory.State()), temporaryLocks)
    {
      var i := 0;
      while i < |temporaryLocks|
        invariant 0 <= i <= |temporaryLocks|
        invariant lockFactory.State() == AfterReleaseAll(lockFactory.oracle, old(lockFactory.State()), temporaryLocks[..i])
      {
        var lock := temporaryLocks[i];
        var threw := lockFactory.CloseLock(lock);
        assert temporaryLocks[..i + 1] == temporaryLocks[..i] + [lock];
        assert ReleaseCalls(temporaryLocks[..i + 1]) == ReleaseCalls(temporaryLocks[..i]) + [CloseCall(lock)];
        i := i + 1;
      }
      assert temporaryLocks[..i] == temporaryLocks;
    }
  }

  /** getLockForRepairResource: one tryLock; a null answer becomes "Lock resources exhausted". */
  method GetLockForRepairResource(node: NodeId, lockFactory: LockFactory, repairResource: RepairResource,
                                  naming: ResourceNaming, metadata: Metadata, priority: int)
    returns (result: Result<DistributedLock, LockException>)
    modifies lockFactory
    ensures var key := KeyOf(repairResource, naming);
      lockFactory.State() == TryLockStep(lockFactory.oracle, old(lockFactory.State()), node, key, priority, metadata).1
    ensures var key := KeyOf(repairResource, naming);
      result == if lockFactory.oracle.answer(key).Grant? then Ok(DistributedLock(old(lockFactory.nextId), key))
                else Err(AcquisitionFailure(lockFactory.oracle, repairResource, naming))
  {
    var dataCenter := repairResource.dataCenter;
    var resource := naming(repairResource, LOCKS_PER_RESOURCE);
    var myLock := lockFactory.TryLock(node, dataCenter, resource, priority, metadata);
    match myLock
    case Acquired(lock) => result := Ok(lock);
    case NoLock => result := Err(ResourcesExhausted(repairResource));
    case Threw(e) => result := Err(e);
  }

  /** getRepairResourceLocks: acquire one lock per resource, closing all of them if any step fails. */
  method GetRepairResourceLocks(node: NodeId, lockFactory: LockFactory, repairResources: seq<RepairResource>,
                                naming: ResourceNaming, metadata: Metadata, priority: int)
    returns (result: LockResult)
    modifies lockFactory
    ensures (result, lockFactory.State())
         == AcquireSpec(lockFactory.oracle, old(lockFactory.State()), node, repairResources, naming, metadata, priority)
  {
    ghost var s0 := lockFactory.State();
    ghost var o := lockFactory.oracle;
    var lockHolder := new TemporaryLockHolder();
    var i := 0;
    while i < |repairResources|
      invariant 0 <= i <= |repairResources|
      invariant forall j :: 0 <= j < i ==> o.answer(KeyOf(repairResources[j], naming)).Grant?
      invariant lockHolder.temporaryLocks == NewLocks(s0.nextId, repairResources, naming, i)
      invariant lockFactory.held == s0.held + Elems(lockHolder.temporaryLocks)
      invariant lockFactory.calls == s0.calls + TryLockCalls(node, repairResources, naming, metadata, priority, i)
      invariant lockFactory.nextId == s0.nextId + i
    {
      var acquired := GetLockForRepairResource(node, lockFactory, repairResources[i], naming, metadata, priority);
      AcquisitionStep(s0.nextId, node, repairResources, naming, metadata, priority, i);
      match acquired
      case Err(e) =>
        AcquireSpecStopsAt(o, s0, node, repairResources, naming, metadata, priority, i);
        assert lockFactory.State() == FactoryState(
          s0.held + Elems(lockHolder.temporaryLocks),
          s0.calls + TryLockCalls(node, repairResources, naming, metadata, priority, i + 1),
          s0.nextId + i);
        lockHolder.Close(lockFactory);
        return Failed(e);
      case Ok(lock) =>
        ElemsAppend(lockHolder.temporaryLocks, lock);
        lockHolder.Add(lock);
      i := i + 1;
    }
    AcquireSpecAllGranted(o, s0, node, repairResources, naming, metadata, priority);
    var locks := lockHolder.GetAndClear();
    ReleaseNothing(o, lockFactory.State());
    lockHolder.Close(lockFactory);
    result := Locked(locks);
  }

  /** One more resource: its tryLock call and its lock follow those of the resources before it. */
  lemma AcquisitionStep(firstId: nat, node: NodeId, rs: seq<RepairResource>, naming: ResourceNaming,
                        metadata: Metadata, priority: int, i: nat)
    requires i < |rs|
    ensures TryLockCalls(node, rs, naming, metadata, priority, i + 1)
         == TryLockCalls(node, rs, naming, metadata, priority, i) + [TryLockCall(node, KeyOf(rs[i], naming), priority, metadata)]
    ensures NewLocks(firstId, rs, naming, i + 1)
         == NewLocks(firstId, rs, naming, i) + [DistributedLock(firstId + i, KeyOf(rs[i], naming))]
  {
  }

  /** The acquisition stops at the first resource whose tryLock does not grant. */
  lemma AcquireSpecStopsAt(o: Oracle, s: FactoryState, node: NodeId, rs: seq<RepairResource>,
                           naming: ResourceNaming, metadata: Metadata, priority: int, i: nat)
    requires i < |rs| && !o.answer(KeyOf(rs[i], naming)).Grant?
    requires forall j :: 0 <= j < i ==> o.answer(KeyOf(rs[j], naming)).Grant?
    ensures var acquired := NewLocks(s.nextId, rs, naming, i);
      AcquireSpec(o, s, node, rs, naming, metadata, priority)
        == (Failed(AcquisitionFailure(o, rs[i], naming)),
            AfterReleaseAll(o, FactoryState(s.held + Elems(acquired),
                                            s.calls + TryLockCalls(node, rs, naming, metadata, priority, i + 1),
                                            s.nextId + i), acquired))
  {
    assert FirstNotGranted(o, rs, naming) == i;
  }

  /** When every tryLock grants, the acquisition holds one new lock per resource. */
  lemma AcquireSpecAllGranted(o: Oracle, s: FactoryState, node: NodeId, rs: seq<RepairResource>,
                              naming: ResourceNaming, metadata: Metadata, priority: int)
    requires forall j :: 0 <= j < |rs| ==> o.answer(KeyOf(rs[j], naming)).Grant?
    ensures var acquired := NewLocks(s.nextId, rs, naming, |rs|);
      AcquireSpec(o, s, node, rs, naming, metadata, priority)
        == (Locked(acquired),
            FactoryState(s.held + Elems(acquired),
                         s.calls + TryLockCalls(node, rs, naming, metadata, priority, |rs|),
                         s.nextId + |rs|))
  {
    assert FirstNotGranted(o, rs, naming) == |rs|;
  }

  /** validateNoCachedFailures: the first cached failure found, to be rethrown as it is. */
  method ValidateNoCachedFailures(lockFactory: LockFactory, repairResources: seq<RepairResource>, naming: ResourceNaming)
    returns (failure: Option<LockException>)
    modifies lockFactory
    ensures var o, k := lockFactory.oracle, FirstCachedFailure(lockFactory.oracle, repairResources, naming);
      && failure == (if k < |repairResources| then Some(o.cachedFailures[KeyOf(repairResources[k], naming)]) else None)
      && lockFactory.State() == old(lockFactory.State()).(
           calls := old(lockFactory.calls)
                  + CacheLookups(repairResources, naming, if k < |repairResources| then k + 1 else k))
  {
    ghost var s0 := lockFactory.State();
    ghost var o := lockFactory.oracle;
    var i := 0;
    while i < |repairResources|
      invariant 0 <= i <= |repairResources|
      invariant forall j :: 0 <= j < i ==> KeyOf(repairResources[j], naming) !in o.cachedFailures
      invariant lockFactory.State() == s0.(calls := s0.calls + CacheLookups(repairResources, naming, i))
    {
      var repairResource := repairResources[i];
      var cachedException := lockFactory.GetCachedFailure(repairResource.dataCenter, naming(repairResource, LOCKS_PER_RESOURCE));
      assert CacheLookups(repairResources, naming, i + 1)
          == CacheLookups(repairResources, naming, i) + [CacheLookup(KeyOf(repairResource, naming))];
      if cachedException.Some? {
        assert FirstCachedFailure(o, repairResources, naming) == i;
        return Some(cachedException.value);
      }
      i := i + 1;
    }
    assert FirstCachedFailure(o, repairResources, naming) == |repairResources|;
    failure := None;
  }

  /** getLock: the locks of all repair resources, or the LockException that explains why not. */
  method GetLock(node: NodeId, lockFactory: LockFactory, repairResources: seq<RepairResource>,
                 naming: ResourceNaming, metadata: Metadata, priority: int)
    returns (result: LockResult)
    modifies lockFactory
    ensures (result, lockFactory.State())
         == GetLockSpec(lockFactory.oracle, old(lockFactory.State()), node, repairResources, naming, metadata, priority)
  {
    ghost var s0 := lockFactory.State();
    ghost var o := lockFactory.oracle;
    var i := 0;
    while i < |repairResources|
      invariant 0 <= i <= |repairResources|
      invariant forall j :: 0 <= j < i ==> o.sufficientNodes(KeyOf(repairResources[j], naming))
      invariant lockFactory.State() == s0.(calls := s0.calls + SufficiencyChecks(repairResources, naming, i))
    {
      var repairResource := repairResources[i];
      var sufficient := lockFactory.SufficientNodesForLocking(repairResource.dataCenter,
                                                              naming(repairResource, LOCKS_PER_RESOURCE));
      assert SufficiencyChecks(repairResources, naming, i + 1)
          == SufficiencyChecks(repairResources, naming, i) + [SufficiencyCheck(KeyOf(repairResource, naming))];
      assert lockFactory.calls == s0.calls + SufficiencyChecks(repairResources, naming, i + 1);
      if !sufficient {
        assert FirstNotLockable(o, repairResources, naming) == i;
        return Failed(NotLockable(repairResource));
      }
      i := i + 1;
    }
    assert FirstNotLockable(o, repairResources, naming) == |repairResources|;
    if |repairResources| == 0 {
      return Failed(NoDataCenters);
    }
    var cached := ValidateNoCachedFailures(lockFactory, repairResources, naming);
    if cached.Some? {
      return Failed(cached.value);
    }
    result := GetRepairResourceLocks(node, lockFactory, repairResources, naming, metadata, priority);
  }

  // ---------------------------------------------------------------------
  // Properties of getLock

  /**
   * If some resource fails the admissibility check, getLock throws a
   * NotLockable exception naming a resource that failed it; the factory
   * received sufficiency checks only: no cache lookup, no tryLock, and no
   * lock changed hands.
   */
  lemma {:induction false} NotLockableFailsBeforeAnyLocking(o: Oracle, s: FactoryState, node: NodeId, rs: seq<RepairResource>,
                                  naming: ResourceNaming, metadata: Metadata, priority: int, i: nat)
    requires i < |rs| && !o.sufficientNodes(KeyOf(rs[i], naming))
    ensures var (r, s') := GetLockSpec(o, s, node, rs, naming, metadata, priority);
      && r.Failed? && r.error.NotLockable?
      && r.error.resource in rs && !o.sufficientNodes(KeyOf(r.error.resource, naming))
      && s'.held == s.held && s'.nextId == s.nextId
      && s.calls <= s'.calls
      && forall c :: c in NewCalls(s, s') ==> c.SufficiencyCheck?
  {
    var (r, s') := GetLockSpec(o, s, node, rs, naming, metadata, priority);
    var bad := FirstNotLockable(o, rs, naming);
    assert bad <= i;
    assert NewCalls(s, s') == SufficiencyChecks(rs, naming, bad + 1);
  }

  /** getLock on an empty resource set always throws NoDataCenters and leaves the factory untouched. */
  lemma EmptyResourceSetNeverLocks(o: Oracle, s: FactoryState, node: NodeId, naming: ResourceNaming,
                                   metadata: Metadata, priority: int)
    ensures GetLockSpec(o, s, node, [], naming, metadata, priority) == (Failed(NoDataCenters), s)
  {
  }

  /**
   * If every resource is admissible and some resource has a cached failure,
   * getLock rethrows the cached exception of the first such resource as it
   * is; the factory received no tryLock and no lock changed hands.
   */
  lemma {:induction false} CachedFailureIsRethrown(o: Oracle, s: FactoryState, node: NodeId, rs: seq<RepairResource>,
                                 naming: ResourceNaming, metadata: Metadata, priority: int, i: nat)
    requires forall j :: 0 <= j < |rs| ==> o.sufficientNodes(KeyOf(rs[j], naming))
    requires i < |rs| && KeyOf(rs[i], naming) in o.cachedFailures
    ensures var (r, s') := GetLockSpec(o, s, node, rs, naming, metadata, priority);
      && r.Failed?
      && (exists j :: 0 <= j <= i && KeyOf(rs[j], naming) in o.cachedFailures
                      && r.error == o.cachedFailures[KeyOf(rs[j], naming)]
                      && forall j' :: 0 <= j' < j ==> KeyOf(rs[j'], naming) !in o.cachedFailures)
      && s'.held == s.held && s'.nextId == s.nextId
      && s.calls <= s'.calls
      && forall c :: c in NewCalls(s, s') ==> c.SufficiencyCheck? || c.CacheLookup?
  {
    var (r, s') := GetLockSpec(o, s, node, rs, naming, metadata, priority);
    var bad := FirstNotLockable(o, rs, naming);
    assert bad == |rs|;
    var c := FirstCachedFailure(o, rs, naming);
    assert c <= i;
    assert NewCalls(s, s') == SufficiencyChecks(rs, naming, |rs|) + CacheLookups(rs, naming, c + 1);
  }

  /**
   * getLock returns locks exactly when the resource set is non-empty, every
   * resource is admissible, none has a cached failure and every tryLock
   * grants a lock: a null from tryLock is never taken for success.
   */
  lemma {:induction false} LockedIffEveryStagePasses(o: Oracle, s: FactoryState, node: NodeId, rs: seq<RepairResource>,
                                   naming: ResourceNaming, metadata: Metadata, priority: int)
    ensures GetLockSpec(o, s, node, rs, naming, metadata, priority).0.Locked?
        <==> && |rs| > 0
             && forall i :: 0 <= i < |rs| ==>
                  && o.sufficientNodes(KeyOf(rs[i], naming))
                  && KeyOf(rs[i], naming) !in o.cachedFailures
                  && o.answer(KeyOf(rs[i], naming)).Grant?
  {
    var bad := FirstNotLockable(o, rs, naming);
    var cached := FirstCachedFailure(o, rs, naming);
    var k := FirstNotGranted(o, rs, naming);
    if bad == |rs| && cached == |rs| && k == |rs| && |rs| > 0 {
      assert GetLockSpec(o, s, node, rs, naming, metadata, priority).0.Locked?;
    }
  }

  /**
   * When the acquisition reaches a resource whose tryLock returns null,
   * getLock throws "Lock resources exhausted" for that resource.
   */
  lemma {:induction false} NullLockIsResourcesExhausted(o: Oracle, s: FactoryState, node: NodeId, rs: seq<RepairResource>,
                                      naming: ResourceNaming, metadata: Metadata, priority: int, i: nat)
    requires i < |rs| && o.answer(KeyOf(rs[i], naming)).Refuse?
    requires forall j :: 0 <= j < |rs| ==> o.sufficientNodes(KeyOf(rs[j], naming))
    requires forall j :: 0 <= j < |rs| ==> KeyOf(rs[j], naming) !in o.cachedFailures
    requires forall j :: 0 <= j < i ==> o.answer(KeyOf(rs[j], naming)).Grant?
    ensures GetLockSpec(o, s, node, rs, naming, metadata, priority).0 == Failed(ResourcesExhausted(rs[i]))
  {
    assert FirstNotLockable(o, rs, naming) == |rs|;
    assert FirstCachedFailure(o, rs, naming) == |rs|;
    assert FirstNotGranted(o, rs, naming) == i;
  }

  /**
   * All or nothing: when getLock throws, every lock held before is still
   * held, and a lock that is held now but was not before is one whose close
   * was attempted in this call and threw.
   */
  lemma {:induction false} FailureReleasesEveryAcquiredLock(o: Oracle, s: FactoryState, node: NodeId, rs: seq<RepairResource>,
                                          naming: ResourceNaming, metadata: Metadata, priority: int)
    requires StateValid(s)
    ensures var (r, s') := GetLockSpec(o, s, node, rs, naming, metadata, priority);
      r.Failed? ==>
        && s.held <= s'.held
        && s.calls <= s'.calls
        && forall l :: l in s'.held && l !in s.held ==> o.releaseThrows(l) && CloseCall(l) in NewCalls(s, s')
  {
    var (r, s') := GetLockSpec(o, s, node, rs, naming, metadata, priority);
    var n := |rs|;
    if r.Failed? && FirstNotLockable(o, rs, naming) == n && n > 0 && FirstCachedFailure(o, rs, naming) == n {
      var s2 := s.(calls := s.calls + SufficiencyChecks(rs, naming, n) + CacheLookups(rs, naming, n));
      assert (r, s') == AcquireSpec(o, s2, node, rs, naming, metadata, priority);
      AcquireFailureKeepsHeldLocks(o, s2, node, rs, naming, metadata, priority);
      assert NewCalls(s, s') == SufficiencyChecks(rs, naming, n) + CacheLookups(rs, naming, n) + NewCalls(s2, s');
    }
  }

  /** The acquisition stage alone: a failure closes every lock it took, keeping the ones held before. */
  lemma AcquireFailureKeepsHeldLocks(o: Oracle, s: FactoryState, node: NodeId, rs: seq<RepairResource>,
                                     naming: ResourceNaming, metadata: Metadata, priority: int)
    requires StateValid(s)
    ensures var (r, s') := AcquireSpec(o, s, node, rs, naming, metadata, priority);
      r.Failed? ==>
        && s.held <= s'.held
        && s.calls <= s'.calls
        && forall l :: l in s'.held && l !in s.held ==> o.releaseThrows(l) && CloseCall(l) in NewCalls(s, s')
  {
    var (r, s') := AcquireSpec(o, s, node, rs, naming, metadata, priority);
    if r.Failed? {
      var k := FirstNotGranted(o, rs, naming);
      var acquired := NewLocks(s.nextId, rs, naming, k);
      var tried := FactoryState(s.held + Elems(acquired),
                                s.calls + TryLockCalls(node, rs, naming, metadata, priority, k + 1),
                                s.nextId + k);
      assert s' == AfterReleaseAll(o, tried, acquired);
      ReleaseAllClosesEveryLock(o, tried, acquired);
      forall l | l in s.held ensures l in s'.held {
        assert l !in acquired;
      }
      forall l | l in s'.held && l !in s.held
        ensures o.releaseThrows(l) && CloseCall(l) in NewCalls(s, s')
      {
        var j :| 0 <= j < |acquired| && acquired[j] == l;
        assert s'.calls[|tried.calls| + j] == CloseCall(l);
        assert s'.calls == s.calls + NewCalls(s, s');
      }
    }
  }

  /** With closes that never throw, a failed getLock leaves exactly the locks that were held before it. */
  lemma FailureRestoresHeldLocks(o: Oracle, s: FactoryState, node: NodeId, rs: seq<RepairResource>,
                                 naming: ResourceNaming, metadata: Metadata, priority: int)
    requires StateValid(s)
    requires forall l :: !o.releaseThrows(l)
    ensures var (r, s') := GetLockSpec(o, s, node, rs, naming, metadata, priority);
      r.Failed? ==> s'.held == s.held
  {
    FailureReleasesEveryAcquiredLock(o, s, node, rs, naming, metadata, priority);
  }

  /**
   * On success the collection holds one new lock per resource, for that
   * resource's key and in acquisition order; the factory holds exactly the
   * locks it held before plus these, and no lock was closed.
   */
  lemma {:induction false} SuccessHoldsOneLockPerResource(o: Oracle, s: FactoryState, node: NodeId, rs: seq<RepairResource>,
                                        naming: ResourceNaming, metadata: Metadata, priority: int)
    requires StateValid(s)
    ensures var (r, s') := GetLockSpec(o, s, node, rs, naming, metadata, priority);
      r.Locked? ==>
        && |r.locks| == |rs|
        && (forall i :: 0 <= i < |rs| ==> r.locks[i].key == KeyOf(rs[i], naming))
        && (forall i, j :: 0 <= i < j < |rs| ==> r.locks[i].id < r.locks[j].id)
        && (forall l :: l in r.locks ==> l !in s.held)
        && s'.held == s.held + Elems(r.locks)
        && StateValid(s')
        && s.calls <= s'.calls
        && forall c :: c in NewCalls(s, s') ==> !c.CloseCall?
  {
    var (r, s') := GetLockSpec(o, s, node, rs, naming, metadata, priority);
    var n := |rs|;
    if r.Locked? {
      assert FirstNotLockable(o, rs, naming) == n && n > 0 && FirstCachedFailure(o, rs, naming) == n;
      var checks, lookups := SufficiencyChecks(rs, naming, n), CacheLookups(rs, naming, n);
      var s2 := s.(calls := s.calls + checks + lookups);
      assert (r, s') == AcquireSpec(o, s2, node, rs, naming, metadata, priority);
      AcquireSuccessTakesNewLocks(o, s2, node, rs, naming, metadata, priority);
      NewCallsCompose(s, s2, s');
      assert NewCalls(s, s2) == checks + lookups;
      var tries := TryLockCalls(node, rs, naming, metadata, priority, n);
      forall c | c in NewCalls(s, s') ensures !c.CloseCall? {
        if c in checks {
        } else if c in lookups {
        } else {
          assert c in tries;
        }
      }
    }
  }

  /** The acquisition stage alone: on success, one new lock per resource and only tryLock calls. */
  lemma AcquireSuccessTakesNewLocks(o: Oracle, s: FactoryState, node: NodeId, rs: seq<RepairResource>,
                                    naming: ResourceNaming, metadata: Metadata, priority: int)
    ensures var (r, s') := AcquireSpec(o, s, node, rs, naming, metadata, priority);
      r.Locked? ==>
        && r.locks == NewLocks(s.nextId, rs, naming, |rs|)
        && s'.held == s.held + Elems(r.locks)
        && s'.nextId == s.nextId + |rs|
        && s.calls <= s'.calls
        && NewCalls(s, s') == TryLockCalls(node, rs, naming, metadata, priority, |rs|)
  {
    var (r, s') := AcquireSpec(o, s, node, rs, naming, metadata, priority);
    if r.Locked? {
      assert FirstNotGranted(o, rs, naming) == |rs|;
      assert s'.calls == s.calls + TryLockCalls(node, rs, naming, metadata, priority, |rs|);
    }
  }

  /**
   * The calls of `cs` other than closes name the key of one of `rs`, and
   * its tryLocks carry the given node, priority and metadata.
   */
  ghost predicate CallsOnResources(cs: seq<Call>, rs: seq<RepairResource>, naming: ResourceNaming,
                                   node: NodeId, metadata: Metadata, priority: int)
  {
    forall p :: 0 <= p < |cs| && !cs[p].CloseCall? ==>
      && (exists i :: 0 <= i < |rs| && cs[p].key == KeyOf(rs[i], naming))
      && (cs[p].TryLockCall? ==> cs[p].node == node && cs[p].priority == priority && cs[p].metadata == metadata)
  }

  lemma CallsOnResourcesAppend(a: seq<Call>, b: seq<Call>, rs: seq<RepairResource>, naming: ResourceNaming,
                               node: NodeId, metadata: Metadata, priority: int)
    requires CallsOnResources(a, rs, naming, node, metadata, priority)
    requires CallsOnResources(b, rs, naming, node, metadata, priority)
    ensures CallsOnResources(a + b, rs, naming, node, metadata, priority)
  {
    forall p | 0 <= p < |a + b| && !(a + b)[p].CloseCall?
      ensures && (exists i :: 0 <= i < |rs| && (a + b)[p].key == KeyOf(rs[i], naming))
              && ((a + b)[p].TryLockCall? ==> (a + b)[p].node == node && (a + b)[p].priority == priority
                                              && (a + b)[p].metadata == metadata)
    {
      if p < |a| { assert (a + b)[p] == a[p]; } else { assert (a + b)[p] == b[p - |a|]; }
    }
  }

  lemma CallsOnResourcesOfParts(rs: seq<RepairResource>, naming: ResourceNaming, node: NodeId,
                                metadata: Metadata, priority: int, n: nat, locks: seq<DistributedLock>)
    requires n <= |rs|
    ensures CallsOnResources(SufficiencyChecks(rs, naming, n), rs, naming, node, metadata, priority)
    ensures CallsOnResources(CacheLookups(rs, naming, n), rs, naming, node, metadata, priority)
    ensures CallsOnResources(TryLockCalls(node, rs, naming, metadata, priority, n), rs, naming, node, metadata, priority)
    ensures CallsOnResources(ReleaseCalls(locks), rs, naming, node, metadata, priority)
  {
    var a := SufficiencyChecks(rs, naming, n);
    forall p | 0 <= p < |a| ensures a[p].key == KeyOf(rs[p], naming) {}
    var b := CacheLookups(rs, naming, n);
    forall p | 0 <= p < |b| ensures b[p].key == KeyOf(rs[p], naming) {}
    var c := TryLockCalls(node, rs, naming, metadata, priority, n);
    forall p | 0 <= p < |c| ensures c[p].key == KeyOf(rs[p], naming) {}
  }

  /** The acquisition stage's calls: the tryLocks, then the closes of the locks it acquired. */
  lemma AcquireCallsOnResources(o: Oracle, s: FactoryState, node: NodeId, rs: seq<RepairResource>,
                                naming: ResourceNaming, metadata: Metadata, priority: int)
    ensures var s' := AcquireSpec(o, s, node, rs, naming, metadata, priority).1;
      s.calls <= s'.calls && CallsOnResources(NewCalls(s, s'), rs, naming, node, metadata, priority)
  {
    var s' := AcquireSpec(o, s, node, rs, naming, metadata, priority).1;
    var k := FirstNotGranted(o, rs, naming);
    var tries := if k < |rs| then k + 1 else k;
    var acquired := NewLocks(s.nextId, rs, naming, k);
    var closes := if k < |rs| then ReleaseCalls(acquired) else [];
    var tryCalls := TryLockCalls(node, rs, naming, metadata, priority, tries);
    assert s'.calls == s.calls + (tryCalls + closes);
    assert NewCalls(s, s') == tryCalls + closes;
    CallsOnResourcesOfParts(rs, naming, node, metadata, priority, tries, acquired);
    CallsOnResourcesAppend(tryCalls, closes, rs, naming, node, metadata, priority);
  }

  /**
   * Every call getLock makes on the factory names the key of one of its
   * resources, derived with LOCKS_PER_RESOURCE; every tryLock passes the
   * caller's node, priority and metadata unchanged.
   */
  lemma CallsUseResourceKeysAndCallerArguments(o: Oracle, s: FactoryState, node: NodeId, rs: seq<RepairResource>,
                                naming: ResourceNaming, metadata: Metadata, priority: int)
    ensures var s' := GetLockSpec(o, s, node, rs, naming, metadata, priority).1;
      s.calls <= s'.calls && CallsOnResources(NewCalls(s, s'), rs, naming, node, metadata, priority)
  {
    var n := |rs|;
    if FirstNotLockable(o, rs, naming) < n {
      NotLockableCallsOnResources(o, s, node, rs, naming, metadata, priority);
    } else if n == 0 {
      var s' := GetLockSpec(o, s, node, rs, naming, metadata, priority).1;
      assert NewCalls(s, s') == [];
    } else if FirstCachedFailure(o, rs, naming) < n {
      CachedFailureCallsOnResources(o, s, node, rs, naming, metadata, priority);
    } else {
      AcquisitionCallsOnResources(o, s, node, rs, naming, metadata, priority);
    }
  }

  lemma NotLockableCallsOnResources(o: Oracle, s: FactoryState, node: NodeId, rs: seq<RepairResource>,
                                    naming: ResourceNaming, metadata: Metadata, priority: int)
    requires FirstNotLockable(o, rs, naming) < |rs|
    ensures var s' := GetLockSpec(o, s, node, rs, naming, metadata, priority).1;
      s.calls <= s'.calls && CallsOnResources(NewCalls(s, s'), rs, naming, node, metadata, priority)
  {
    var s' := GetLockSpec(o, s, node, rs, naming, metadata, priority).1;
    var bad := FirstNotLockable(o, rs, naming);
    CallsOnResourcesOfParts(rs, naming, node, metadata, priority, bad + 1, []);
    assert s'.calls == s.calls + SufficiencyChecks(rs, naming, bad + 1);
    assert NewCalls(s, s') == SufficiencyChecks(rs, naming, bad + 1);
  }

  lemma CachedFailureCallsOnResources(o: Oracle, s: FactoryState, node: NodeId, rs: seq<RepairResource>,
                                      naming: ResourceNaming, metadata: Metadata, priority: int)
    requires FirstNotLockable(o, rs, naming) == |rs| > 0 && FirstCachedFailure(o, rs, naming) < |rs|
    ensures var s' := GetLockSpec(o, s, node, rs, naming, metadata, priority).1;
      s.calls <= s'.calls && CallsOnResources(NewCalls(s, s'), rs, naming, node, metadata, priority)
  {
    var s' := GetLockSpec(o, s, node, rs, naming, metadata, priority).1;
    var checks := SufficiencyChecks(rs, naming, |rs|);
    var lookups := CacheLookups(rs, naming, FirstCachedFailure(o, rs, naming) + 1);
    CallsOnResourcesOfParts(rs, naming, node, metadata, priority, |rs|, []);
    CallsOnResourcesOfParts(rs, naming, node, metadata, priority, FirstCachedFailure(o, rs, naming) + 1, []);
    CallsOnResourcesAppend(checks, lookups, rs, naming, node, metadata, priority);
    assert s'.calls == s.calls + (checks + lookups);
    assert NewCalls(s, s') == checks + lookups;
  }

  lemma AcquisitionCallsOnResources(o: Oracle, s: FactoryState, node: NodeId, rs: seq<RepairResource>,
                                    naming: ResourceNaming, metadata: Metadata, priority: int)
    requires FirstNotLockable(o, rs, naming) == |rs| > 0 && FirstCachedFailure(o, rs, naming) == |rs|
    ensures var s' := GetLockSpec(o, s, node, rs, naming, metadata, priority).1;
      s.calls <= s'.calls && CallsOnResources(NewCalls(s, s'), rs, naming, node, metadata, priority)
  {
    var s' := GetLockSpec(o, s, node, rs, naming, metadata, priority).1;
    var checks := SufficiencyChecks(rs, naming, |rs|);
    var lookups := CacheLookups(rs, naming, |rs|);
    var s2 := s.(calls := s.calls + checks + lookups);
    assert s' == AcquireSpec(o, s2, node, rs, naming, metadata, priority).1;
    CallsOnResourcesOfParts(rs, naming, node, metadata, priority, |rs|, []);
    AcquireCallsOnResources(o, s2, node, rs, naming, metadata, priority);
    var more := NewCalls(s2, s');
    CallsOnResourcesAppend(checks, lookups, rs, naming, node, metadata, priority);
    CallsOnResourcesAppend(checks + lookups, more, rs, naming, node, metadata, priority);
    NewCallsCompose(s, s2, s');
    assert NewCalls(s, s2) == checks + lookups;
  }

  /** The calls between s and s' are those between s and s2, then those between s2 and s'. */
  lemma NewCallsCompose(s: FactoryState, s2: FactoryState, s': FactoryState)
    requires s.calls <= s2.calls <= s'.calls
    ensures s.calls <= s'.calls && NewCalls(s, s') == NewCalls(s, s2) + NewCalls(s2, s')
  {
    assert s'.calls == s2.calls + NewCalls(s2, s');
    assert s2.calls == s.calls + NewCalls(s, s2);
  }

  /** getLock keeps the factory's invariant: every held lock was handed out before. */
  lemma GetLockPreservesValid(o: Oracle, s: FactoryState, node: NodeId, rs: seq<RepairResource>,
                              naming: ResourceNaming, metadata: Metadata, priority: int)
    requires StateValid(s)
    ensures StateValid(GetLockSpec(o, s, node, rs, naming, metadata, priority).1)
  {
  }
}
