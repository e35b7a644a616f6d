/** The provider's cached experiments and experiment groups, guarded by separate locks, as the
    steps of concurrent tasks. A fetch brings a pair; the two halves are stored one after the
    other. */
module SnapshotProtocol {
  import opened Wrappers

  type TaskId = nat

  /** Fetches are numbered: a stored half is known by the fetch that brought it. */
  type FetchId = nat

  datatype Task =
    | Idle
    // Storing a fetched pair.
    | WantsExperiments(fetch: FetchId)
    | StoredExperiments(fetch: FetchId)   // writes experiments; waits for the groups
    | StoredGroups(fetch: FetchId)        // writes both; waits for the update time
    | StoredAll                           // writes all three
    | LeavingBoth                         // writes both, update time released
    | LeavingExperiments                  // writes experiments, groups released
    // Reading both, as for the applicable variants.
    | ReaderWaits
    | ReaderInExperiments                 // reads experiments; waits for the groups
    | ReaderInBoth                        // reads both
    | ReaderLeaves                        // reads experiments, groups released
    // Reading one.
    | ExperimentsOnly                     // reads experiments
    | GroupsOnly                          // reads groups
    // Closing.
    | CloserWaits                         // waits for the polling handle
    | CloserInHandle                      // writes the handle; waits for experiments
    | CloserInExperiments                 // writes the handle and experiments
    | CloserLeaves                        // writes the handle, experiments released

  predicate WritesExperiments(task: Task) {
    task.StoredExperiments? || task.StoredGroups? || task.StoredAll? || task.LeavingBoth? ||
    task.LeavingExperiments? || task.CloserInExperiments?
  }

  predicate ReadsExperiments(task: Task) {
    task.ReaderInExperiments? || task.ReaderInBoth? || task.ReaderLeaves? || task.ExperimentsOnly?
  }

  predicate WritesGroups(task: Task) {
    task.StoredGroups? || task.StoredAll? || task.LeavingBoth?
  }

  predicate ReadsGroups(task: Task) {
    task.ReaderInBoth? || task.GroupsOnly?
  }

  predicate WritesUpdated(task: Task) {
    task.StoredAll?
  }

  predicate WritesHandle(task: Task) {
    task.CloserInHandle? || task.CloserInExperiments? || task.CloserLeaves?
  }

  /** `polling` is the stored handle, `aborted` the tasks that were told to stop, and `torn`
      records that the last task to store experiments was dropped before storing the groups. */
  datatype State = State(
    experiments: Option<FetchId>,
    groups: Option<FetchId>,
    polling: Option<TaskId>,
    aborted: set<TaskId>,
    nextFetch: FetchId,
    torn: bool,
    tasks: map<TaskId, Task>)

  ghost predicate Initial(s: State) {
    s.experiments == None && s.groups == None && s.polling == None && s.aborted == {} && !s.torn &&
    forall t :: t in s.tasks ==> s.tasks[t].Idle?
  }

  // ---------- Steps ----------

  datatype Step =
    | Fetch(t: TaskId)
    | StoreExperiments(t: TaskId)
    | StoreGroups(t: TaskId)
    | StoreUpdated(t: TaskId)
    | ReleaseUpdated(t: TaskId)
    | ReleaseGroups(t: TaskId)
    | ReleaseExperiments(t: TaskId)
    | StartPolling(t: TaskId, poller: TaskId)
    | StartRead(t: TaskId)
    | ReadExperiments(t: TaskId)
    | ReadGroups(t: TaskId)
    | FinishRead(t: TaskId)
    | LeaveRead(t: TaskId)
    | ReadExperimentsOnly(t: TaskId)
    | ReadGroupsOnly(t: TaskId)
    | LeaveOnly(t: TaskId)
    | StartClose(t: TaskId)
    | TakeHandle(t: TaskId)
    | ClearExperiments(t: TaskId)
    | LeaveClose(t: TaskId)
    | FinishClose(t: TaskId)
    | Drop(t: TaskId)
    | Cancel(t: TaskId)

  ghost predicate ExperimentsUnwritten(s: State) {
    forall t :: t in s.tasks ==> !WritesExperiments(s.tasks[t])
  }

  ghost predicate ExperimentsFree(s: State) {
    ExperimentsUnwritten(s) && forall t :: t in s.tasks ==> !ReadsExperiments(s.tasks[t])
  }

  ghost predicate GroupsUnwritten(s: State) {
    forall t :: t in s.tasks ==> !WritesGroups(s.tasks[t])
  }

  ghost predicate GroupsFree(s: State) {
    GroupsUnwritten(s) && forall t :: t in s.tasks ==> !ReadsGroups(s.tasks[t])
  }

  ghost predicate UpdatedFree(s: State) {
    forall t :: t in s.tasks ==> !WritesUpdated(s.tasks[t])
  }

  ghost predicate HandleFree(s: State) {
    forall t :: t in s.tasks ==> !WritesHandle(s.tasks[t])
  }

  /** Where an aborted task that stores is dropped; an idle one starts nothing new. */
  predicate WaitsToStore(task: Task) {
    task.WantsExperiments? || task.StoredExperiments? || task.StoredGroups?
  }

  /** Where a caller may give a task up: wherever it waits. */
  predicate Waits(task: Task) {
    WaitsToStore(task) || task.ReaderWaits? || task.ReaderInExperiments? || task.CloserWaits? || task.CloserInHandle?
  }

  ghost predicate Enabled(s: State, step: Step) {
    step.t in s.tasks &&
    var task := s.tasks[step.t];
    (task.Idle? ==> step.t !in s.aborted) &&
    match step
    case Fetch(_) => task.Idle?
    case StoreExperiments(_) => task.WantsExperiments? && ExperimentsFree(s)
    case StoreGroups(_) => task.StoredExperiments? && GroupsFree(s)
    case StoreUpdated(_) => task.StoredGroups? && UpdatedFree(s)
    case ReleaseUpdated(_) => task.StoredAll?
    case ReleaseGroups(_) => task.LeavingBoth?
    case ReleaseExperiments(_) => task.LeavingExperiments?
    case StartPolling(_, poller) => task.Idle? && HandleFree(s) && poller in s.tasks
    case StartRead(_) => task.Idle?
    case ReadExperiments(_) => task.ReaderWaits? && ExperimentsUnwritten(s)
    case ReadGroups(_) => task.ReaderInExperiments? && GroupsUnwritten(s)
    case FinishRead(_) => task.ReaderInBoth?
    case LeaveRead(_) => task.ReaderLeaves?
    case ReadExperimentsOnly(_) => task.Idle? && ExperimentsUnwritten(s)
    case ReadGroupsOnly(_) => task.Idle? && GroupsUnwritten(s)
    case LeaveOnly(_) => task.ExperimentsOnly? || task.GroupsOnly?
    case StartClose(_) => task.Idle?
    case TakeHandle(_) => task.CloserWaits? && HandleFree(s)
    case ClearExperiments(_) => task.CloserInHandle? && ExperimentsFree(s)
    case LeaveClose(_) => task.CloserInExperiments?
    case FinishClose(_) => task.CloserLeaves?
    case Drop(_) => WaitsToStore(task) && step.t in s.aborted
    case Cancel(_) => Waits(task)
  }

  ghost function Apply(s: State, step: Step): State
    requires Enabled(s, step)
  {
    match step
    case Fetch(t) => s.(nextFetch := s.nextFetch + 1, tasks := s.tasks[t := WantsExperiments(s.nextFetch)])
    case StoreExperiments(t) =>
      s.(experiments := Some(s.tasks[t].fetch), tasks := s.tasks[t := StoredExperiments(s.tasks[t].fetch)])
    case StoreGroups(t) =>
      s.(groups := Some(s.tasks[t].fetch), torn := false, tasks := s.tasks[t := StoredGroups(s.tasks[t].fetch)])
    case StoreUpdated(t) => s.(tasks := s.tasks[t := StoredAll])
    case ReleaseUpdated(t) => s.(tasks := s.tasks[t := LeavingBoth])
    case ReleaseGroups(t) => s.(tasks := s.tasks[t := LeavingExperiments])
    case ReleaseExperiments(t) => s.(tasks := s.tasks[t := Idle])
    case StartPolling(_, poller) => s.(polling := Some(poller))
    case StartRead(t) => s.(tasks := s.tasks[t := ReaderWaits])
    case ReadExperiments(t) => s.(tasks := s.tasks[t := ReaderInExperiments])
    case ReadGroups(t) => s.(tasks := s.tasks[t := ReaderInBoth])
    case FinishRead(t) => s.(tasks := s.tasks[t := ReaderLeaves])
    case LeaveRead(t) => s.(tasks := s.tasks[t := Idle])
    case ReadExperimentsOnly(t) => s.(tasks := s.tasks[t := ExperimentsOnly])
    case ReadGroupsOnly(t) => s.(tasks := s.tasks[t := GroupsOnly])
    case LeaveOnly(t) => s.(tasks := s.tasks[t := Idle])
    case StartClose(t) => s.(tasks := s.tasks[t := CloserWaits])
    case TakeHandle(t) =>
      s.(polling := None, aborted := s.aborted + (if s.polling.Some? then {s.polling.value} else {}),
         tasks := s.tasks[t := CloserInHandle])
    case ClearExperiments(t) => s.(experiments := None, torn := false, tasks := s.tasks[t := CloserInExperiments])
    case LeaveClose(t) => s.(tasks := s.tasks[t := CloserLeaves])
    case FinishClose(t) => s.(tasks := s.tasks[t := Idle])
    case Drop(t) => s.(torn := s.torn || s.tasks[t].StoredExperiments?, tasks := s.tasks[t := Idle])
    case Cancel(t) => s.(torn := s.torn || s.tasks[t].StoredExperiments?, tasks := s.tasks[t := Idle])
  }

  /** The steps that tear: a task is dropped between storing the two halves. */
  ghost predicate Tears(s: State, step: Step) {
    (step.Drop? || step.Cancel?) && step.t in s.tasks && s.tasks[step.t].StoredExperiments?
  }

  ghost predicate CanRun(s: State, steps: seq<Step>)
    decreases |steps|
  {
    steps == [] || (Enabled(s, steps[0]) && CanRun(Apply(s, steps[0]), steps[1..]))
  }

  ghost function After(s: State, steps: seq<Step>): State
    requires CanRun(s, steps)
    decreases |steps|
  {
    if steps == [] then s else After(Apply(s, steps[0]), steps[1..])
  }

  ghost predicate Reachable(s: State) {
    exists start, steps :: Initial(start) && CanRun(start, steps) && After(start, steps) == s
  }

  ghost predicate Reaches(s: State, after: State) {
    exists steps :: CanRun(s, steps) && After(s, steps) == after
  }

  lemma ReachesItself(s: State)
    ensures Reaches(s, s)
  {
    assert CanRun(s, []) && After(s, []) == s;
  }

  lemma {:induction false} OneMoreStep(s: State, steps: seq<Step>, step: Step)
    requires CanRun(s, steps) && Enabled(After(s, steps), step)
    ensures CanRun(s, steps + [step])
    ensures After(s, steps + [step]) == Apply(After(s, steps), step)
    decreases |steps|
  {
    var longer := steps + [step];
    if steps == [] {
      assert longer[1..] == [];
    } else {
      OneMoreStep(Apply(s, steps[0]), steps[1..], step);
      assert longer[1..] == steps[1..] + [step];
    }
  }

  ghost predicate Leads(s: State, step: Step, after: State) {
    Enabled(s, step) && Apply(s, step) == after
  }

  lemma ReachesOn(start: State, s: State, step: Step, after: State)
    requires Reaches(start, s) && Leads(s, step, after)
    ensures Reaches(start, after)
  {
    var steps :| CanRun(start, steps) && After(start, steps) == s;
    OneMoreStep(start, steps, step);
  }

  // ---------- What every step keeps ----------

  ghost predicate Exclusive(s: State) {
    forall t, u :: t in s.tasks && u in s.tasks && t != u ==>
      && (WritesExperiments(s.tasks[t]) ==> !WritesExperiments(s.tasks[u]) && !ReadsExperiments(s.tasks[u]))
      && (WritesGroups(s.tasks[t]) ==> !ReadsGroups(s.tasks[u]))
      && (WritesHandle(s.tasks[t]) ==> !WritesHandle(s.tasks[u]))
  }

  /** A fetch that is still to be stored, wholly or half. */
  predicate Carries(task: Task) {
    task.WantsExperiments? || task.StoredExperiments?
  }

  /** Fetches under way are distinct, and not yet among the groups. */
  ghost predicate FetchesDistinct(s: State) {
    && (forall t :: t in s.tasks && Carries(s.tasks[t]) ==>
          s.tasks[t].fetch < s.nextFetch && s.groups != Some(s.tasks[t].fetch))
    && (forall t, u :: t in s.tasks && u in s.tasks && t != u && Carries(s.tasks[t]) && Carries(s.tasks[u]) ==>
          s.tasks[t].fetch != s.tasks[u].fetch)
    && (s.groups.Some? ==> s.groups.value < s.nextFetch)
  }

  /** What is stored, as the task that writes it knows. */
  ghost predicate WriterKnows(s: State, task: Task) {
    match task
    case StoredExperiments(fetch) => s.experiments == Some(fetch)
    case StoredGroups(_) => s.experiments.Some? && s.experiments == s.groups && !s.torn
    case StoredAll => s.experiments.Some? && s.experiments == s.groups && !s.torn
    case LeavingBoth => s.experiments.Some? && s.experiments == s.groups && !s.torn
    case LeavingExperiments => s.experiments.Some? && s.experiments == s.groups && !s.torn
    case CloserInExperiments => s.experiments.None? && !s.torn
    case _ => true
  }

  /** The halves belong together exactly when nothing is torn. */
  ghost predicate Whole(s: State) {
    s.experiments.Some? ==> (s.experiments == s.groups <==> !s.torn)
  }

  ghost predicate Invariant(s: State) {
    && Exclusive(s)
    && FetchesDistinct(s)
    && (forall t :: t in s.tasks ==> WriterKnows(s, s.tasks[t]))
    && (ExperimentsUnwritten(s) ==> Whole(s))
  }

  /** A step changes at most the task that takes it, which gains a guard only when it is free. */
  lemma StepChangesOneTask(s: State, step: Step)
    requires Enabled(s, step)
    ensures var after := Apply(s, step);
            && step.t in after.tasks
            && after.tasks == s.tasks[step.t := after.tasks[step.t]]
            && (WritesExperiments(after.tasks[step.t]) ==> WritesExperiments(s.tasks[step.t]) || ExperimentsFree(s))
            && (ReadsExperiments(after.tasks[step.t]) ==> ReadsExperiments(s.tasks[step.t]) || ExperimentsUnwritten(s))
  {
    if step.StartPolling? {
      assert s.tasks == s.tasks[step.t := s.tasks[step.t]];
    }
  }

  lemma StepGainsFreeGuards(s: State, step: Step)
    requires Enabled(s, step) && step.t in Apply(s, step).tasks
    ensures var task := Apply(s, step).tasks[step.t];
            && (WritesGroups(task) ==> WritesGroups(s.tasks[step.t]) || GroupsFree(s))
            && (ReadsGroups(task) ==> ReadsGroups(s.tasks[step.t]) || GroupsUnwritten(s))
            && (WritesHandle(task) ==> WritesHandle(s.tasks[step.t]) || HandleFree(s))
  {
  }

  lemma StepKeepsExclusive(s: State, step: Step)
    requires Exclusive(s) && Enabled(s, step)
    ensures Exclusive(Apply(s, step))
  {
    StepChangesOneTask(s, step);
    StepGainsFreeGuards(s, step);
  }

  /** A task goes on carrying its fetch, or carries a new one; fetches reach the groups when
      they are no longer carried. */
  lemma StepCarries(s: State, step: Step)
    requires Enabled(s, step) && step.t in Apply(s, step).tasks
    ensures var before, after := s.tasks[step.t], Apply(s, step).tasks[step.t];
            && (Carries(after) ==>
                  if step.Fetch? then after.fetch == s.nextFetch else Carries(before) && after.fetch == before.fetch)
            && Apply(s, step).nextFetch == s.nextFetch + (if step.Fetch? then 1 else 0)
            && (if step.StoreGroups?
                then Carries(before) && !Carries(after) && Apply(s, step).groups == Some(before.fetch)
                else Apply(s, step).groups == s.groups)
  {
  }

  lemma StepKeepsFetchesDistinct(s: State, step: Step)
    requires FetchesDistinct(s) && Enabled(s, step)
    ensures FetchesDistinct(Apply(s, step))
  {
    var after := Apply(s, step);
    StepChangesOneTask(s, step);
    StepCarries(s, step);
    forall t | t in after.tasks && Carries(after.tasks[t])
      ensures after.tasks[t].fetch < after.nextFetch && after.groups != Some(after.tasks[t].fetch)
    {
      assert t != step.t ==> after.tasks[t] == s.tasks[t];
    }
    forall t, u | t in after.tasks && u in after.tasks && t != u && Carries(after.tasks[t]) && Carries(after.tasks[u])
      ensures after.tasks[t].fetch != after.tasks[u].fetch
    {
      assert t != step.t ==> after.tasks[t] == s.tasks[t];
      assert u != step.t ==> after.tasks[u] == s.tasks[u];
    }
  }

  /** Only a task that may write experiments or groups changes what is stored. */
  lemma StepStores(s: State, step: Step)
    requires Enabled(s, step)
    ensures var after := Apply(s, step);
            after.experiments != s.experiments || after.groups != s.groups || after.torn != s.torn ==>
              WritesExperiments(s.tasks[step.t]) || ExperimentsFree(s)
  {
  }

  lemma StepKeepsKnowledge(s: State, step: Step, u: TaskId)
    requires Invariant(s) && Enabled(s, step) && u in Apply(s, step).tasks
    ensures WriterKnows(Apply(s, step), Apply(s, step).tasks[u])
  {
    StepChangesOneTask(s, step);
    StepStores(s, step);
    assert WriterKnows(s, s.tasks[u]);
    assert WriterKnows(s, s.tasks[step.t]);
  }

  lemma StepKeepsWhole(s: State, step: Step)
    requires Invariant(s) && Enabled(s, step) && ExperimentsUnwritten(Apply(s, step))
    ensures Whole(Apply(s, step))
  {
    var after := Apply(s, step);
    StepChangesOneTask(s, step);
    StepStores(s, step);
    assert WriterKnows(s, s.tasks[step.t]);
    if !WritesExperiments(s.tasks[step.t]) {
      forall u | u in s.tasks ensures !WritesExperiments(s.tasks[u]) {
        assert u != step.t ==> after.tasks[u] == s.tasks[u];
      }
    }
  }

  lemma StepKeepsInvariant(s: State, step: Step)
    requires Invariant(s) && Enabled(s, step)
    ensures Invariant(Apply(s, step))
  {
    var after := Apply(s, step);
    StepKeepsExclusive(s, step);
    StepKeepsFetchesDistinct(s, step);
    forall u | u in after.tasks ensures WriterKnows(after, after.tasks[u]) {
      StepKeepsKnowledge(s, step, u);
    }
    if ExperimentsUnwritten(after) {
      StepKeepsWhole(s, step);
    }
  }

  lemma {:induction false} RunKeepsInvariant(s: State, steps: seq<Step>)
    requires Invariant(s) && CanRun(s, steps)
    ensures Invariant(After(s, steps))
    decreases |steps|
  {
    if steps != [] {
      StepKeepsInvariant(s, steps[0]);
      RunKeepsInvariant(Apply(s, steps[0]), steps[1..]);
    }
  }

  lemma ReachableKeepsInvariant(s: State)
    requires Reachable(s)
    ensures Invariant(s)
  {
    var start, steps :| Initial(start) && CanRun(start, steps) && After(start, steps) == s;
    RunKeepsInvariant(start, steps);
  }

  // ---------- What readers see ----------

  /** In every run, a reader of both halves sees halves of one fetch exactly when the last
      task to store experiments was not dropped half way. */
  lemma SnapshotIffNotTorn(s: State, t: TaskId)
    requires Reachable(s) && t in s.tasks && s.tasks[t].ReaderInBoth?
    requires s.experiments.Some? && s.groups.Some?
    ensures s.experiments == s.groups <==> !s.torn
  {
    ReachableKeepsInvariant(s);
    forall u | u in s.tasks ensures !WritesExperiments(s.tasks[u]) {
      assert u == t ==> !WritesExperiments(s.tasks[t]);
    }
  }

  ghost predicate NeverTears(s: State, steps: seq<Step>)
    requires CanRun(s, steps)
    decreases |steps|
  {
    steps == [] || (!Tears(s, steps[0]) && NeverTears(Apply(s, steps[0]), steps[1..]))
  }

  lemma {:induction false} NotTornWithoutTearing(s: State, steps: seq<Step>)
    requires CanRun(s, steps) && NeverTears(s, steps) && !s.torn
    ensures !After(s, steps).torn
    decreases |steps|
  {
    if steps != [] {
      NotTornWithoutTearing(Apply(s, steps[0]), steps[1..]);
    }
  }

  /** In a run in which nobody is dropped half way, readers always see one fetch. */
  lemma SnapshotIsConsistent(start: State, steps: seq<Step>, t: TaskId)
    requires Initial(start) && CanRun(start, steps) && NeverTears(start, steps)
    requires var s := After(start, steps);
             t in s.tasks && s.tasks[t].ReaderInBoth? && s.experiments.Some? && s.groups.Some?
    ensures After(start, steps).experiments == After(start, steps).groups
  {
    NotTornWithoutTearing(start, steps);
    SnapshotIffNotTorn(After(start, steps), t);
  }

  // ---------- No reachable state is stuck ----------

  /** The task is under way and needs no guard, or needs one that nobody holds in any mode. */
  ghost predicate Proceeds(s: State, t: TaskId) {
    t in s.tasks &&
    match s.tasks[t]
    case Idle => false
    case WantsExperiments(_) => ExperimentsFree(s)
    case StoredExperiments(_) => GroupsFree(s)
    case StoredGroups(_) => UpdatedFree(s)
    case ReaderWaits => ExperimentsFree(s)
    case ReaderInExperiments => GroupsFree(s)
    case CloserWaits => HandleFree(s)
    case CloserInHandle => ExperimentsFree(s)
    case _ => true
  }

  lemma ProceedsByStep(s: State, t: TaskId) returns (step: Step)
    requires Proceeds(s, t)
    ensures !step.Drop? && !step.Cancel? && step.t == t && Enabled(s, step)
  {
    step := match s.tasks[t]
      case WantsExperiments(_) => StoreExperiments(t)
      case StoredExperiments(_) => StoreGroups(t)
      case StoredGroups(_) => StoreUpdated(t)
      case StoredAll => ReleaseUpdated(t)
      case LeavingBoth => ReleaseGroups(t)
      case LeavingExperiments => ReleaseExperiments(t)
      case ReaderWaits => ReadExperiments(t)
      case ReaderInExperiments => ReadGroups(t)
      case ReaderInBoth => FinishRead(t)
      case ReaderLeaves => LeaveRead(t)
      case ExperimentsOnly => LeaveOnly(t)
      case GroupsOnly => LeaveOnly(t)
      case CloserWaits => TakeHandle(t)
      case CloserInHandle => ClearExperiments(t)
      case CloserInExperiments => LeaveClose(t)
      case CloserLeaves => FinishClose(t);
  }

  /** With nobody reading the groups, whoever writes experiments finds the next guard free. */
  lemma WriterProceeds(s: State, writer: TaskId)
    requires Invariant(s) && writer in s.tasks && WritesExperiments(s.tasks[writer])
    requires forall u :: u in s.tasks ==> !ReadsGroups(s.tasks[u])
    ensures Proceeds(s, writer)
  {
    forall u | u in s.tasks && u != writer
      ensures !WritesGroups(s.tasks[u]) && !WritesUpdated(s.tasks[u])
    {
      assert !WritesExperiments(s.tasks[u]);
    }
  }

  lemma ReaderProceeds(s: State, reader: TaskId)
    requires Invariant(s) && reader in s.tasks && ReadsExperiments(s.tasks[reader])
    requires forall u :: u in s.tasks ==> !ReadsGroups(s.tasks[u])
    ensures Proceeds(s, reader)
  {
    forall u | u in s.tasks
      ensures !WritesGroups(s.tasks[u])
    {
      assert u != reader ==> !WritesExperiments(s.tasks[u]);
    }
  }

  /** Whenever some task is under way, some task can go on without waiting for another:
      everybody takes the handle, the experiments, the groups and the update time in that
      order. */
  lemma NeverStuck(s: State, busy: TaskId) returns (t: TaskId)
    requires Reachable(s) && busy in s.tasks && !s.tasks[busy].Idle?
    ensures Proceeds(s, t)
  {
    ReachableKeepsInvariant(s);
    if reader :| reader in s.tasks && ReadsGroups(s.tasks[reader]) {
      t := reader;
    } else if writer :| writer in s.tasks && WritesExperiments(s.tasks[writer]) {
      t := writer;
      WriterProceeds(s, writer);
    } else if reader :| reader in s.tasks && ReadsExperiments(s.tasks[reader]) {
      t := reader;
      ReaderProceeds(s, reader);
    } else if closer :| closer in s.tasks && WritesHandle(s.tasks[closer]) {
      t := closer;
    } else {
      t := busy;
    }
  }

  // ---------- One task running on its own ----------

  ghost predicate Resting(s: State) {
    forall t :: t in s.tasks ==> s.tasks[t].Idle?
  }

  /** One task is at this point, and the others rest. */
  ghost function At(s: State, t: TaskId, task: Task): State {
    s.(tasks := s.tasks[t := task])
  }

  lemma AtIdle(s: State, t: TaskId)
    requires Resting(s) && t in s.tasks
    ensures At(s, t, Idle) == s
  {
    assert s.tasks[t := Idle] == s.tasks;
  }

  lemma AtAgain(s: State, t: TaskId, one: Task, other: Task)
    ensures At(At(s, t, one), t, other) == At(s, t, other)
  {
    assert s.tasks[t := one][t := other] == s.tasks[t := other];
  }

  /** With the others at rest, a task at any point finds every guard it wants free. */
  lemma AloneIsFree(s: State, t: TaskId, task: Task)
    requires Resting(s) && t in s.tasks
    ensures var at := At(s, t, task);
            && (!WritesExperiments(task) && !ReadsExperiments(task) ==> ExperimentsFree(at))
            && (!WritesGroups(task) && !ReadsGroups(task) ==> GroupsFree(at))
            && (!WritesUpdated(task) ==> UpdatedFree(at))
            && (!WritesHandle(task) ==> HandleFree(at))
  {
  }

  lemma StoreSteps(s: State, t: TaskId)
    requires Resting(s) && t in s.tasks && t !in s.aborted
    ensures var n := s.nextFetch;
            var fetched := s.(nextFetch := n + 1);
            var half := fetched.(experiments := Some(n));
            var whole := half.(groups := Some(n), torn := false);
            && Leads(s, Fetch(t), At(fetched, t, WantsExperiments(n)))
            && Leads(At(fetched, t, WantsExperiments(n)), StoreExperiments(t), At(half, t, StoredExperiments(n)))
            && Leads(At(half, t, StoredExperiments(n)), StoreGroups(t), At(whole, t, StoredGroups(n)))
  {
    var n := s.nextFetch;
    var fetched := s.(nextFetch := n + 1);
    var half := fetched.(experiments := Some(n));
    AloneIsFree(fetched, t, WantsExperiments(n));
    AloneIsFree(half, t, StoredExperiments(n));
    AtAgain(half, t, WantsExperiments(n), StoredExperiments(n));
    AtAgain(half.(groups := Some(n), torn := false), t, StoredExperiments(n), StoredGroups(n));
  }

  lemma LeaveSteps(s: State, t: TaskId, n: FetchId)
    requires Resting(s) && t in s.tasks && t !in s.aborted
    ensures Leads(At(s, t, StoredGroups(n)), StoreUpdated(t), At(s, t, StoredAll))
    ensures Leads(At(s, t, StoredAll), ReleaseUpdated(t), At(s, t, LeavingBoth))
    ensures Leads(At(s, t, LeavingBoth), ReleaseGroups(t), At(s, t, LeavingExperiments))
    ensures Leads(At(s, t, LeavingExperiments), ReleaseExperiments(t), s)
  {
    AloneIsFree(s, t, StoredGroups(n));
    AtAgain(s, t, StoredGroups(n), StoredAll);
    AtAgain(s, t, StoredAll, LeavingBoth);
    AtAgain(s, t, LeavingBoth, LeavingExperiments);
    AtAgain(s, t, LeavingExperiments, Idle);
    AtIdle(s, t);
  }

  lemma LeaveRun(start: State, s: State, t: TaskId, n: FetchId)
    requires Resting(s) && t in s.tasks && t !in s.aborted && Reaches(start, At(s, t, StoredGroups(n)))
    ensures Reaches(start, s)
  {
    LeaveSteps(s, t, n);
    ReachesOn(start, At(s, t, StoredGroups(n)), StoreUpdated(t), At(s, t, StoredAll));
    ReachesOn(start, At(s, t, StoredAll), ReleaseUpdated(t), At(s, t, LeavingBoth));
    ReachesOn(start, At(s, t, LeavingBoth), ReleaseGroups(t), At(s, t, LeavingExperiments));
    ReachesOn(start, At(s, t, LeavingExperiments), ReleaseExperiments(t), s);
  }

  /** Fetching and storing a pair. */
  lemma StoreRun(s: State, t: TaskId)
    requires Resting(s) && t in s.tasks && t !in s.aborted
    ensures var n := s.nextFetch;
            Reaches(s, s.(experiments := Some(n), groups := Some(n), torn := false, nextFetch := n + 1))
  {
    var n := s.nextFetch;
    var fetched := s.(nextFetch := n + 1);
    var half := fetched.(experiments := Some(n));
    var whole := half.(groups := Some(n), torn := false);
    StoreSteps(s, t);
    ReachesItself(s);
    ReachesOn(s, s, Fetch(t), At(fetched, t, WantsExperiments(n)));
    ReachesOn(s, At(fetched, t, WantsExperiments(n)), StoreExperiments(t), At(half, t, StoredExperiments(n)));
    ReachesOn(s, At(half, t, StoredExperiments(n)), StoreGroups(t), At(whole, t, StoredGroups(n)));
    LeaveRun(s, whole, t, n);
  }

  lemma PollingRun(start: State, s: State, t: TaskId, poller: TaskId)
    requires Reaches(start, s) && Resting(s) && t in s.tasks && t !in s.aborted && poller in s.tasks
    ensures Reaches(start, s.(polling := Some(poller)))
  {
    ReachesOn(start, s, StartPolling(t, poller), s.(polling := Some(poller)));
  }

  /** After the handle has been taken. */
  ghost function Stopped(s: State): State {
    s.(polling := None, aborted := s.aborted + (if s.polling.Some? then {s.polling.value} else {}))
  }

  lemma TakeSteps(s: State, t: TaskId)
    requires Resting(s) && t in s.tasks && t !in s.aborted
    ensures Leads(s, StartClose(t), At(s, t, CloserWaits))
    ensures Leads(At(s, t, CloserWaits), TakeHandle(t), At(Stopped(s), t, CloserInHandle))
  {
    AloneIsFree(s, t, CloserWaits);
    AtAgain(Stopped(s), t, CloserWaits, CloserInHandle);
  }

  lemma ClearSteps(s: State, t: TaskId)
    requires Resting(s) && t in s.tasks
    ensures var cleared := s.(experiments := None, torn := false);
            && Leads(At(s, t, CloserInHandle), ClearExperiments(t), At(cleared, t, CloserInExperiments))
            && Leads(At(cleared, t, CloserInExperiments), LeaveClose(t), At(cleared, t, CloserLeaves))
            && Leads(At(cleared, t, CloserLeaves), FinishClose(t), cleared)
  {
    var cleared := s.(experiments := None, torn := false);
    AloneIsFree(s, t, CloserInHandle);
    AtAgain(cleared, t, CloserInHandle, CloserInExperiments);
    AtAgain(cleared, t, CloserInExperiments, CloserLeaves);
    AtAgain(cleared, t, CloserLeaves, Idle);
    AtIdle(cleared, t);
  }

  lemma CloseRun(s: State, t: TaskId)
    requires Resting(s) && t in s.tasks && t !in s.aborted
    ensures Reaches(s, Stopped(s).(experiments := None, torn := false))
  {
    var taken := Stopped(s);
    var cleared := taken.(experiments := None, torn := false);
    TakeSteps(s, t);
    ClearSteps(taken, t);
    ReachesItself(s);
    ReachesOn(s, s, StartClose(t), At(s, t, CloserWaits));
    ReachesOn(s, At(s, t, CloserWaits), TakeHandle(t), At(taken, t, CloserInHandle));
    ReachesOn(s, At(taken, t, CloserInHandle), ClearExperiments(t), At(cleared, t, CloserInExperiments));
    ReachesOn(s, At(cleared, t, CloserInExperiments), LeaveClose(t), At(cleared, t, CloserLeaves));
    ReachesOn(s, At(cleared, t, CloserLeaves), FinishClose(t), cleared);
  }
}
