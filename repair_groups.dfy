/**
 * RepairGroup: one scheduled repair job for a table.  Construction checks
 * that every builder field is set; execute runs the group's repair tasks,
 * consulting the run policies before each one; getLock takes the locks for
 * the group's repair resources through the repair lock factory.
 *
 * A repair task's body (JMX, metrics) is not part of this model: a task's
 * execution is an outcome given per task position.  The policies' answers
 * are given per table and per check, so that a policy may change its mind
 * between two tasks.
 */
module RepairGroups {
  import opened Common
  import opened Locking
  import opened RepairLocking

  const LOCK_METADATA_KEYSPACE: string := "keyspace"
  const LOCK_METADATA_TABLE: string := "table"

  /** Collaborators that are only stored and passed on; their identity is all that matters here. */
  datatype ReplicaRepairGroup = ReplicaRepairGroup(id: nat)
  datatype JmxProxyFactory = JmxProxyFactory(id: nat)
  datatype TableRepairMetrics = TableRepairMetrics(id: nat)
  datatype RepairLockFactory = RepairLockFactory(id: nat)

  /** RepairResourceFactory: the resources to lock for a replica group, in iteration order. */
  datatype RepairResourceFactory = RepairResourceFactory(getRepairResources: ReplicaRepairGroup -> seq<RepairResource>)

  /** TableRepairPolicy: whether a table may be repaired at the `moment`-th check. */
  datatype TableRepairPolicy = TableRepairPolicy(shouldRun: (TableReference, nat) -> bool)

  /** RepairGroup.Builder: a missing field is None; the policy list starts out empty. */
  datatype Builder = Builder(
    tableReference: Option<TableReference>,
    repairConfiguration: Option<RepairConfiguration>,
    replicaRepairGroup: Option<ReplicaRepairGroup>,
    jmxProxyFactory: Option<JmxProxyFactory>,
    tableRepairMetrics: Option<TableRepairMetrics>,
    repairResourceFactory: Option<RepairResourceFactory>,
    repairLockFactory: Option<RepairLockFactory>,
    repairPolicies: Option<seq<TableRepairPolicy>>)

  /** RepairGroup.newBuilder() */
  function NewBuilder(): (b: Builder)
    ensures b.repairPolicies == Some([])
    ensures b.tableReference.None? && b.repairConfiguration.None? && b.replicaRepairGroup.None?
    ensures b.jmxProxyFactory.None? && b.tableRepairMetrics.None?
    ensures b.repairResourceFactory.None? && b.repairLockFactory.None?
  {
    Builder(None, None, None, None, None, None, None, Some([]))
  }

  datatype RepairGroup = RepairGroup(
    priority: int,
    tableReference: TableReference,
    repairConfiguration: RepairConfiguration,
    replicaRepairGroup: ReplicaRepairGroup,
    jmxProxyFactory: JmxProxyFactory,
    tableRepairMetrics: TableRepairMetrics,
    repairResourceFactory: RepairResourceFactory,
    repairLockFactory: RepairLockFactory,
    repairPolicies: seq<TableRepairPolicy>)

  /** The NullPointerException that Preconditions.checkNotNull throws, with its message. */
  datatype NullPointerException = NullPointerException(message: string)

  /** Every field of the builder is set. */
  predicate Complete(b: Builder) {
    && b.tableReference.Some? && b.repairConfiguration.Some? && b.replicaRepairGroup.Some?
    && b.jmxProxyFactory.Some? && b.tableRepairMetrics.Some? && b.repairResourceFactory.Some?
    && b.repairLockFactory.Some? && b.repairPolicies.Some?
  }

  /**
   * new RepairGroup(priority, builder): the fields are checked in declaration
   * order and the first one missing is reported.
   */
  function NewRepairGroup(priority: int, b: Builder): (r: Result<RepairGroup, NullPointerException>)
    ensures r.Ok? <==> Complete(b)
    ensures r.Ok? ==>
      && r.value.priority == priority
      && r.value.tableReference == b.tableReference.value
      && r.value.repairConfiguration == b.repairConfiguration.value
      && r.value.replicaRepairGroup == b.replicaRepairGroup.value
      && r.value.jmxProxyFactory == b.jmxProxyFactory.value
      && r.value.tableRepairMetrics == b.tableRepairMetrics.value
      && r.value.repairResourceFactory == b.repairResourceFactory.value
      && r.value.repairLockFactory == b.repairLockFactory.value
      && r.value.repairPolicies == b.repairPolicies.value
    ensures b.tableReference.None? ==> r == Err(NullPointerException("Table reference must be set"))
  {
    if b.tableReference.None? then Err(NullPointerException("Table reference must be set"))
    else if b.repairConfiguration.None? then Err(NullPointerException("Repair configuration must be set"))
    else if b.replicaRepairGroup.None? then Err(NullPointerException("Replica repair group must be set"))
    else if b.jmxProxyFactory.None? then Err(NullPointerException("Jmx proxy factory must be set"))
    else if b.tableRepairMetrics.None? then Err(NullPointerException("Table repair metrics must be set"))
    else if b.repairResourceFactory.None? then Err(NullPointerException("Repair resource factory must be set"))
    else if b.repairLockFactory.None? then Err(NullPointerException("Repair lock factory must be set"))
    else if b.repairPolicies.None? then Err(NullPointerException("Repair policies must be set"))
    else Ok(RepairGroup(priority, b.tableReference.value, b.repairConfiguration.value, b.replicaRepairGroup.value,
                        b.jmxProxyFactory.value, b.tableRepairMetrics.value, b.repairResourceFactory.value,
                        b.repairLockFactory.value, b.repairPolicies.value))
  }

  /** A builder fresh from newBuilder() has no table reference, so building it fails on that first. */
  lemma FreshBuilderFailsOnTableReference(priority: int)
    ensures NewRepairGroup(priority, NewBuilder()) == Err(NullPointerException("Table reference must be set"))
  {
  }

  /**
   * The checks the constructor makes, in declaration order: whether the
   * field is set, and the message reported when it is not.
   */
  function FieldChecks(b: Builder): seq<(bool, string)> {
    [ (b.tableReference.Some?, "Table reference must be set"),
      (b.repairConfiguration.Some?, "Repair configuration must be set"),
      (b.replicaRepairGroup.Some?, "Replica repair group must be set"),
      (b.jmxProxyFactory.Some?, "Jmx proxy factory must be set"),
      (b.tableRepairMetrics.Some?, "Table repair metrics must be set"),
      (b.repairResourceFactory.Some?, "Repair resource factory must be set"),
      (b.repairLockFactory.Some?, "Repair lock factory must be set"),
      (b.repairPolicies.Some?, "Repair policies must be set") ]
  }

  /**
   * Missing fields are reported in the declaration order: when field k is the
   * first one not set, the message is field k's, whatever the later fields hold.
   */
  lemma {:induction false} FirstMissingFieldIsReported(priority: int, b: Builder, k: nat)
    requires k < |FieldChecks(b)|
    requires forall j :: 0 <= j < k ==> FieldChecks(b)[j].0
    requires !FieldChecks(b)[k].0
    ensures NewRepairGroup(priority, b) == Err(NullPointerException(FieldChecks(b)[k].1))
  {
    var checks := FieldChecks(b);
    if k > 0 { assert checks[0].0; }
    if k > 1 { assert checks[1].0; }
    if k > 2 { assert checks[2].0; }
    if k > 3 { assert checks[3].0; }
    if k > 4 { assert checks[4].0; }
    if k > 5 { assert checks[5].0; }
    if k > 6 { assert checks[6].0; }
  }

  /** The builder is complete exactly when none of the checks finds a missing field. */
  lemma CompleteIffEveryCheckPasses(b: Builder)
    ensures Complete(b) <==> forall j :: 0 <= j < |FieldChecks(b)| ==> FieldChecks(b)[j].0
  {
    var checks := FieldChecks(b);
    if forall j :: 0 <= j < |checks| ==> checks[j].0 {
      assert checks[0].0 && checks[1].0 && checks[2].0 && checks[3].0;
      assert checks[4].0 && checks[5].0 && checks[6].0 && checks[7].0;
    }
  }

  // ---------------------------------------------------------------------
  // Policies and tasks

  /** shouldContinue(): every policy lets the table run (allMatch, so an empty list never vetoes). */
  function ShouldContinue(policies: seq<TableRepairPolicy>, table: TableReference, moment: nat): (ok: bool)
    ensures ok <==> forall i :: 0 <= i < |policies| ==> policies[i].shouldRun(table, moment)
    ensures policies == [] ==> ok
  {
    if |policies| == 0 then true
    else policies[0].shouldRun(table, moment) && ShouldContinue(policies[1..], table, moment)
  }

  /** A repair task this group runs. */
  datatype RepairTask = IncrementalRepairTask(
    node: NodeId,
    jmxProxyFactory: JmxProxyFactory,
    tableReference: TableReference,
    repairConfiguration: RepairConfiguration,
    tableRepairMetrics: TableRepairMetrics)

  /** getRepairTasks(nodeID): a single incremental repair task for the group's table. */
  function GetRepairTasks(group: RepairGroup, node: NodeId): (tasks: seq<RepairTask>)
    ensures |tasks| == 1
    ensures tasks[0].IncrementalRepairTask?
    ensures tasks[0].node == node && tasks[0].tableReference == group.tableReference
    ensures tasks[0].repairConfiguration == group.repairConfiguration
    ensures tasks[0].jmxProxyFactory == group.jmxProxyFactory && tasks[0].tableRepairMetrics == group.tableRepairMetrics
  {
    [IncrementalRepairTask(node, group.jmxProxyFactory, group.tableReference,
                           group.repairConfiguration, group.tableRepairMetrics)]
  }

  /**
   * How a task's execute() ends: normally, with a ScheduledJobException, or
   * with a ScheduledJobException caused by an InterruptedException.
   */
  datatype TaskOutcome = Completed | JobFailed | JobInterrupted

  /** What happened to the task at a position of the task list. */
  datatype Event = Executed(task: nat) | CleanedUp(task: nat)

  /** The events of the first m tasks run one after another: each executed, then cleaned up. */
  function Attempts(m: nat): seq<Event> {
    if m == 0 then [] else Attempts(m - 1) + [Executed(m - 1), CleanedUp(m - 1)]
  }

  /**
   * The position, from i on, of the first task before which a policy vetoes
   * or whose execution is interrupted; n if there is none.
   */
  function FirstStop(policies: seq<TableRepairPolicy>, table: TableReference, n: nat,
                     outcome: nat -> TaskOutcome, i: nat): (k: nat)
    requires i <= n
    ensures i <= k <= n
    ensures forall j :: i <= j < k ==> ShouldContinue(policies, table, j) && !outcome(j).JobInterrupted?
    ensures k < n ==> !ShouldContinue(policies, table, k) || outcome(k).JobInterrupted?
    decreases n - i
  {
    if i == n then n
    else if !ShouldContinue(policies, table, i) || outcome(i).JobInterrupted? then i
    else FirstStop(policies, table, n, outcome, i + 1)
  }

  /** How many tasks are executed: up to a veto, or up to and including an interrupted task. */
  function AttemptedCount(policies: seq<TableRepairPolicy>, table: TableReference, n: nat,
                          outcome: nat -> TaskOutcome): nat
  {
    var k := FirstStop(policies, table, n, outcome, 0);
    if k < n && ShouldContinue(policies, table, k) then k + 1 else k
  }

  predicate AllCompleted(outcome: nat -> TaskOutcome, n: nat) {
    forall j :: 0 <= j < n ==> outcome(j).Completed?
  }

  /** The result of execute over n tasks, and what happened to the tasks. */
  function ExecuteSpec(policies: seq<TableRepairPolicy>, table: TableReference, n: nat,
                       outcome: nat -> TaskOutcome): (bool, seq<Event>)
  {
    var k := FirstStop(policies, table, n, outcome, 0);
    (k == n && AllCompleted(outcome, n),
     Attempts(AttemptedCount(policies, table, n, outcome)))
  }

  /** The loop of execute(nodeID) over a task list. */
  method ExecuteTasks(group: RepairGroup, tasks: seq<RepairTask>, outcome: nat -> TaskOutcome)
    returns (successful: bool, trace: seq<Event>)
    ensures (successful, trace) == ExecuteSpec(group.repairPolicies, group.tableReference, |tasks|, outcome)
  {
    ghost var policies, table, n := group.repairPolicies, group.tableReference, |tasks|;
    successful := true;
    trace := [];
    var i := 0;
    while i < |tasks|
      invariant 0 <= i <= n
      invariant forall j :: 0 <= j < i ==> ShouldContinue(policies, table, j) && !outcome(j).JobInterrupted?
      invariant FirstStop(policies, table, n, outcome, 0) == FirstStop(policies, table, n, outcome, i)
      invariant successful == AllCompleted(outcome, i)
      invariant trace == Attempts(i)
    {
      if !ShouldContinue(group.repairPolicies, group.tableReference, i) {
        assert FirstStop(policies, table, n, outcome, 0) == i;
        successful := false;
        break;
      }
      trace := trace + [Executed(i)];
      var result := outcome(i);
      if !result.Completed? {
        successful := false;
      }
      trace := trace + [CleanedUp(i)];
      if result.JobInterrupted? {
        assert FirstStop(policies, table, n, outcome, 0) == i;
        assert AttemptedCount(policies, table, n, outcome) == i + 1;
        assert trace == Attempts(i + 1);
        break;
      }
      i := i + 1;
    }
    assert i == n ==> FirstStop(policies, table, n, outcome, 0) == n;
  }

  /** execute(nodeID): runs the group's repair tasks. */
  method Execute(group: RepairGroup, node: NodeId, outcome: nat -> TaskOutcome)
    returns (successful: bool, trace: seq<Event>)
    ensures (successful, trace) == ExecuteSpec(group.repairPolicies, group.tableReference, 1, outcome)
  {
    var tasks := GetRepairTasks(group, node);
    successful, trace := ExecuteTasks(group, tasks, outcome);
  }

  // ---------------------------------------------------------------------
  // Properties of execute

  /** Task events in order: task j is executed at position 2j and cleaned up right after it. */
  lemma {:induction false} AttemptsOrder(m: nat)
    ensures |Attempts(m)| == 2 * m
    ensures forall j :: 0 <= j < m ==> Attempts(m)[2 * j] == Executed(j) && Attempts(m)[2 * j + 1] == CleanedUp(j)
  {
    if m > 0 {
      AttemptsOrder(m - 1);
      var prev := Attempts(m - 1);
      forall j | 0 <= j < m
        ensures Attempts(m)[2 * j] == Executed(j) && Attempts(m)[2 * j + 1] == CleanedUp(j)
      {
        if j < m - 1 {
          assert Attempts(m)[2 * j] == prev[2 * j];
          assert Attempts(m)[2 * j + 1] == prev[2 * j + 1];
        }
      }
    }
  }

  /** Exactly the first m tasks have events, and no event occurs twice. */
  lemma {:induction false} AttemptsOnce(m: nat)
    ensures forall e :: e in Attempts(m) <==> e.task < m
    ensures forall p, q :: 0 <= p < q < |Attempts(m)| ==> Attempts(m)[p] != Attempts(m)[q]
  {
    if m > 0 {
      AttemptsOnce(m - 1);
      var prev := Attempts(m - 1);
      var tail := [Executed(m - 1), CleanedUp(m - 1)];
      assert Attempts(m) == prev + tail;
      forall e ensures e in Attempts(m) <==> e.task < m {
        assert e in Attempts(m) <==> e in prev || e in tail;
      }
      forall p, q | 0 <= p < q < |Attempts(m)| ensures Attempts(m)[p] != Attempts(m)[q] {
        if q < |prev| {
          assert Attempts(m)[p] == prev[p] && Attempts(m)[q] == prev[q];
        } else if p < |prev| {
          assert Attempts(m)[p] == prev[p];
          assert prev[p] in prev;
          assert Attempts(m)[q] == tail[q - |prev|];
        }
      }
    }
  }

  /** execute returns true exactly when no policy vetoes any task and every task completes. */
  lemma {:induction false} ExecuteSucceedsIff(policies: seq<TableRepairPolicy>, table: TableReference, n: nat,
                                              outcome: nat -> TaskOutcome)
    ensures ExecuteSpec(policies, table, n, outcome).0
        ==> forall j :: 0 <= j < n ==> ShouldContinue(policies, table, j) && outcome(j).Completed?
    ensures (forall j :: 0 <= j < n ==> ShouldContinue(policies, table, j) && outcome(j).Completed?)
        ==> ExecuteSpec(policies, table, n, outcome).0
  {
    var k := FirstStop(policies, table, n, outcome, 0);
    assert ExecuteSpec(policies, table, n, outcome).0 == (k == n && AllCompleted(outcome, n));
    if k == n && AllCompleted(outcome, n) {
      assert forall j :: 0 <= j < n ==> ShouldContinue(policies, table, j);
      assert forall j :: 0 <= j < n ==> outcome(j).Completed?;
    }
  }

  /** The events of a run: the tasks before the stopping point, each executed and then cleaned up. */
  lemma {:induction false} ExecuteTrace(policies: seq<TableRepairPolicy>, table: TableReference, n: nat,
                                        outcome: nat -> TaskOutcome)
    ensures var m := AttemptedCount(policies, table, n, outcome);
      && m <= n
      && ExecuteSpec(policies, table, n, outcome).1 == Attempts(m)
      && (forall j :: 0 <= j < m ==> ShouldContinue(policies, table, j))
      && (forall j :: 0 <= j < m - 1 ==> !outcome(j).JobInterrupted?)
  {
  }

  /**
   * A veto before task i stops the loop: the result is false, and task i and
   * every later task are neither executed nor cleaned up.
   */
  lemma {:induction false} VetoStopsExecution(policies: seq<TableRepairPolicy>, table: TableReference, n: nat,
                                              outcome: nat -> TaskOutcome, i: nat)
    requires i < n && !ShouldContinue(policies, table, i)
    requires forall j :: 0 <= j < i ==> ShouldContinue(policies, table, j) && !outcome(j).JobInterrupted?
    ensures var (ok, trace) := ExecuteSpec(policies, table, n, outcome);
      && !ok
      && trace == Attempts(i)
      && forall j :: i <= j ==> Executed(j) !in trace && CleanedUp(j) !in trace
  {
    var k := FirstStop(policies, table, n, outcome, 0);
    assert k == i;
    AttemptsOnce(i);
    forall j | i <= j ensures Executed(j) !in Attempts(i) && CleanedUp(j) !in Attempts(i) {
      assert Executed(j).task == j && CleanedUp(j).task == j;
    }
  }

  /**
   * An interrupted task ends the loop: the result is false, the task itself
   * is still cleaned up, and no later task is executed.
   */
  lemma {:induction false} InterruptionStopsExecution(policies: seq<TableRepairPolicy>, table: TableReference, n: nat,
                                                      outcome: nat -> TaskOutcome, i: nat)
    requires i < n && ShouldContinue(policies, table, i) && outcome(i).JobInterrupted?
    requires forall j :: 0 <= j < i ==> ShouldContinue(policies, table, j) && !outcome(j).JobInterrupted?
    ensures var (ok, trace) := ExecuteSpec(policies, table, n, outcome);
      && !ok
      && trace == Attempts(i + 1)
      && CleanedUp(i) in trace
      && forall j :: i < j ==> Executed(j) !in trace
  {
    var k := FirstStop(policies, table, n, outcome, 0);
    assert k == i;
    AttemptsOnce(i + 1);
    assert CleanedUp(i).task == i;
    forall j | i < j ensures Executed(j) !in Attempts(i + 1) {
      assert Executed(j).task == j;
    }
  }

  /**
   * A task that fails without interruption makes the result false but does
   * not stop the loop: the next task runs if the policies allow it.
   */
  lemma {:induction false} FailureDoesNotStopExecution(policies: seq<TableRepairPolicy>, table: TableReference, n: nat,
                                                       outcome: nat -> TaskOutcome, i: nat)
    requires i + 1 < n && outcome(i).JobFailed?
    requires forall j :: 0 <= j <= i + 1 ==> ShouldContinue(policies, table, j)
    requires forall j :: 0 <= j <= i ==> !outcome(j).JobInterrupted?
    ensures var (ok, trace) := ExecuteSpec(policies, table, n, outcome);
      !ok && Executed(i) in trace && Executed(i + 1) in trace && CleanedUp(i) in trace
  {
    var k := FirstStop(policies, table, n, outcome, 0);
    assert k > i + 1 || k == i + 1;
    var m := AttemptedCount(policies, table, n, outcome);
    assert m >= i + 2;
    AttemptsOnce(m);
    assert Executed(i).task == i && Executed(i + 1).task == i + 1 && CleanedUp(i).task == i;
    ExecuteSucceedsIff(policies, table, n, outcome);
  }

  /**
   * cleanup runs exactly once for every task whose execute was attempted,
   * right after it, and never for a task that was not attempted; the
   * attempted tasks are a prefix of the task list, executed in order.
   */
  lemma {:induction false} CleanupOncePerAttemptedTask(policies: seq<TableRepairPolicy>, table: TableReference, n: nat,
                                                       outcome: nat -> TaskOutcome)
    ensures var trace, m := ExecuteSpec(policies, table, n, outcome).1, AttemptedCount(policies, table, n, outcome);
      && m <= n
      && |trace| == 2 * m
      && (forall j :: 0 <= j < m ==> trace[2 * j] == Executed(j) && trace[2 * j + 1] == CleanedUp(j))
      && (forall j: nat :: (CleanedUp(j) in trace <==> j < m) && (Executed(j) in trace <==> j < m))
      && forall p, q :: 0 <= p < q < |trace| ==> trace[p] != trace[q]
  {
    var m := AttemptedCount(policies, table, n, outcome);
    AttemptsOrder(m);
    AttemptsOnce(m);
    forall j: nat ensures (CleanedUp(j) in Attempts(m) <==> j < m) && (Executed(j) in Attempts(m) <==> j < m) {
      assert CleanedUp(j).task == j && Executed(j).task == j;
    }
  }

  /** With its single task, execute succeeds exactly when the policies allow it and the task completes. */
  lemma GroupExecutionSucceedsIff(group: RepairGroup, outcome: nat -> TaskOutcome)
    ensures ExecuteSpec(group.repairPolicies, group.tableReference, 1, outcome).0
        <==> ShouldContinue(group.repairPolicies, group.tableReference, 0) && outcome(0).Completed?
  {
    ExecuteSucceedsIff(group.repairPolicies, group.tableReference, 1, outcome);
  }

  // ---------------------------------------------------------------------
  // getLock

  /** getLock(nodeID, lockFactory): the table as lock metadata, the group's resources and its priority. */
  method GetLock(group: RepairGroup, node: NodeId, lockFactory: LockFactory, naming: ResourceNaming)
    returns (result: LockResult)
    modifies lockFactory
    ensures (result, lockFactory.State())
         == GetLockSpec(lockFactory.oracle, old(lockFactory.State()), node,
                        group.repairResourceFactory.getRepairResources(group.replicaRepairGroup), naming,
                        map[LOCK_METADATA_KEYSPACE := group.tableReference.keyspace,
                            LOCK_METADATA_TABLE := group.tableReference.table],
                        group.priority)
    ensures old(lockFactory.Valid()) ==> lockFactory.Valid()
  {
    var metadata: Metadata := map[];
    metadata := metadata[LOCK_METADATA_KEYSPACE := group.tableReference.keyspace];
    metadata := metadata[LOCK_METADATA_TABLE := group.tableReference.table];
    var repairResources := group.repairResourceFactory.getRepairResources(group.replicaRepairGroup);
    ghost var s0 := lockFactory.State();
    result := RepairLocking.GetLock(node, lockFactory, repairResources, naming, metadata, group.priority);
    if StateValid(s0) {
      GetLockPreservesValid(lockFactory.oracle, s0, node, repairResources, naming, metadata, group.priority);
    }
  }

  /**
   * Every tryLock a group's getLock issues carries metadata with exactly the
   * keys "keyspace" and "table", holding the group's table, and the group's
   * priority; every call names one of the resources of its replica group.
   */
  lemma {:induction false} GroupLockCarriesTableMetadata(group: RepairGroup, o: Oracle, s: FactoryState, node: NodeId,
                                                          naming: ResourceNaming)
    ensures var rs := group.repairResourceFactory.getRepairResources(group.replicaRepairGroup);
      var metadata := map[LOCK_METADATA_KEYSPACE := group.tableReference.keyspace,
                          LOCK_METADATA_TABLE := group.tableReference.table];
      var s' := GetLockSpec(o, s, node, rs, naming, metadata, group.priority).1;
      && s.calls <= s'.calls
      && forall p :: 0 <= p < |NewCalls(s, s')| && NewCalls(s, s')[p].TryLockCall? ==>
           var c := NewCalls(s, s')[p];
           && c.metadata.Keys == {"keyspace", "table"}
           && c.metadata["keyspace"] == group.tableReference.keyspace
           && c.metadata["table"] == group.tableReference.table
           && c.priority == group.priority && c.node == node
           && exists i :: 0 <= i < |rs| && c.key == KeyOf(rs[i], naming)
  {
    var rs := group.repairResourceFactory.getRepairResources(group.replicaRepairGroup);
    var metadata := map[LOCK_METADATA_KEYSPACE := group.tableReference.keyspace,
                        LOCK_METADATA_TABLE := group.tableReference.table];
    CallsUseResourceKeysAndCallerArguments(o, s, node, rs, naming, metadata, group.priority);
    assert metadata.Keys == {"keyspace", "table"};
  }
}
