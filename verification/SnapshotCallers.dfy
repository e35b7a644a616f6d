/** Which callers can rely on the halves of a snapshot belonging together. */
module SnapshotCallers {
  import opened Wrappers
  import opened SnapshotProtocol

  /** What callers do: close the configuration, or give up a call that fetches and stores. */
  datatype Callers = Callers(close: bool, abandon: bool)

  ghost predicate Permits(callers: Callers, s: State, step: Step) {
    && (step.StartClose? ==> callers.close)
    && (step.Cancel? && step.t in s.tasks && WaitsToStore(s.tasks[step.t]) ==> callers.abandon)
  }

  ghost predicate Permitted(callers: Callers, s: State, steps: seq<Step>)
    requires CanRun(s, steps)
    decreases |steps|
  {
    steps == [] || (Permits(callers, s, steps[0]) && Permitted(callers, Apply(s, steps[0]), steps[1..]))
  }

  ghost predicate ReachableUnder(callers: Callers, s: State) {
    exists start, steps ::
      Initial(start) && CanRun(start, steps) && After(start, steps) == s && Permitted(callers, start, steps)
  }

  /** Whoever reads both halves reads halves of one fetch. */
  ghost predicate Consistent(s: State) {
    forall t :: t in s.tasks && s.tasks[t].ReaderInBoth? && s.experiments.Some? && s.groups.Some? ==>
      s.experiments == s.groups
  }

  // ---------- Callers that neither close nor give up ----------

  /** Nobody has been told to stop, and nobody closes. */
  ghost predicate Quiet(s: State) {
    s.aborted == {} &&
    forall t :: t in s.tasks ==>
      !s.tasks[t].CloserWaits? && !WritesHandle(s.tasks[t])
  }

  lemma {:induction false} QuietRunNeverTears(s: State, steps: seq<Step>)
    requires Quiet(s) && CanRun(s, steps) && Permitted(Callers(false, false), s, steps)
    ensures NeverTears(s, steps)
    decreases |steps|
  {
    if steps != [] {
      StepChangesOneTask(s, steps[0]);
      QuietRunNeverTears(Apply(s, steps[0]), steps[1..]);
    }
  }

  lemma QuietCallersAreSafe(s: State)
    requires ReachableUnder(Callers(false, false), s)
    ensures Consistent(s)
  {
    var start, steps :| Initial(start) && CanRun(start, steps) && After(start, steps) == s
      && Permitted(Callers(false, false), start, steps);
    QuietRunNeverTears(start, steps);
    forall t | t in s.tasks && s.tasks[t].ReaderInBoth? && s.experiments.Some? && s.groups.Some?
      ensures s.experiments == s.groups
    {
      SnapshotIsConsistent(start, steps, t);
    }
  }

  // ---------- Steps of a run ----------

  lemma {:induction false} OneMorePermitted(callers: Callers, s: State, steps: seq<Step>, step: Step)
    requires CanRun(s, steps) && Permitted(callers, s, steps) && Enabled(After(s, steps), step)
    requires Permits(callers, After(s, steps), step) && CanRun(s, steps + [step])
    ensures Permitted(callers, s, steps + [step])
    decreases |steps|
  {
    var longer := steps + [step];
    if steps == [] {
      assert longer[1..] == [];
    } else {
      assert longer[1..] == steps[1..] + [step];
      OneMorePermitted(callers, Apply(s, steps[0]), steps[1..], step);
    }
  }

  lemma Onwards(callers: Callers, s: State, step: Step, after: State)
    requires ReachableUnder(callers, s) && Leads(s, step, after) && Permits(callers, s, step)
    ensures ReachableUnder(callers, after)
  {
    var start, steps :| Initial(start) && CanRun(start, steps) && After(start, steps) == s
      && Permitted(callers, start, steps);
    OneMoreStep(start, steps, step);
    OneMorePermitted(callers, start, steps, step);
  }

  /** A task that stores, a reader of the groups, a task that creates and closes, and a reader of
      both. */
  ghost function Four(experiments: Option<FetchId>, groups: Option<FetchId>, polling: Option<TaskId>,
                      aborted: set<TaskId>, nextFetch: FetchId, torn: bool, storer: Task, only: Task, closer: Task,
                      reader: Task): State
  {
    State(experiments, groups, polling, aborted, nextFetch, torn,
          map[0 := storer, 1 := only, 2 := closer, 3 := reader])
  }

  ghost function Storing(polling: Option<TaskId>, experiments: Option<FetchId>, groups: Option<FetchId>,
                         nextFetch: FetchId, storer: Task): State {
    Four(experiments, groups, polling, {}, nextFetch, false, storer, Idle, Idle, Idle)
  }

  lemma StorerTurns(a: Task, b: Task, c: Task, d: Task, x: Task)
    ensures map[0 as TaskId := a, 1 := b, 2 := c, 3 := d][0 := x] == map[0 as TaskId := x, 1 := b, 2 := c, 3 := d]
  {
  }

  lemma OnlyTurns(a: Task, b: Task, c: Task, d: Task, x: Task)
    ensures map[0 as TaskId := a, 1 := b, 2 := c, 3 := d][1 := x] == map[0 as TaskId := a, 1 := x, 2 := c, 3 := d]
  {
  }

  lemma CloserTurns(a: Task, b: Task, c: Task, d: Task, x: Task)
    ensures map[0 as TaskId := a, 1 := b, 2 := c, 3 := d][2 := x] == map[0 as TaskId := a, 1 := b, 2 := x, 3 := d]
  {
  }

  lemma ReaderTurns(a: Task, b: Task, c: Task, d: Task, x: Task)
    ensures map[0 as TaskId := a, 1 := b, 2 := c, 3 := d][3 := x] == map[0 as TaskId := a, 1 := b, 2 := c, 3 := x]
  {
  }

  // ---------- The first pair is stored undisturbed ----------

  /** A task that fetches and stores while the others rest. */
  lemma PairStored(callers: Callers, s: State, t: TaskId)
    requires ReachableUnder(callers, s) && Resting(s) && t in s.tasks && t !in s.aborted
    ensures var n := s.nextFetch;
            ReachableUnder(callers, s.(experiments := Some(n), groups := Some(n), torn := false, nextFetch := n + 1))
  {
    var n := s.nextFetch;
    var fetched := s.(nextFetch := n + 1);
    var half := fetched.(experiments := Some(n));
    var whole := half.(groups := Some(n), torn := false);
    StoreSteps(s, t);
    Onwards(callers, s, Fetch(t), At(fetched, t, WantsExperiments(n)));
    Onwards(callers, At(fetched, t, WantsExperiments(n)), StoreExperiments(t), At(half, t, StoredExperiments(n)));
    Onwards(callers, At(half, t, StoredExperiments(n)), StoreGroups(t), At(whole, t, StoredGroups(n)));
    LeaveSteps(whole, t, n);
    Onwards(callers, At(whole, t, StoredGroups(n)), StoreUpdated(t), At(whole, t, StoredAll));
    Onwards(callers, At(whole, t, StoredAll), ReleaseUpdated(t), At(whole, t, LeavingBoth));
    Onwards(callers, At(whole, t, LeavingBoth), ReleaseGroups(t), At(whole, t, LeavingExperiments));
    Onwards(callers, At(whole, t, LeavingExperiments), ReleaseExperiments(t), whole);
  }

  ghost function FirstStored(polling: Option<TaskId>): State {
    Storing(polling, Some(0), Some(0), 1, Idle)
  }

  /** Creating the configuration stores the first pair, before any polling starts. */
  lemma FirstPair(callers: Callers)
    ensures ReachableUnder(callers, FirstStored(None))
  {
    var start := Storing(None, None, None, 0, Idle);
    assert Initial(start) && CanRun(start, []) && After(start, []) == start && Permitted(callers, start, []);
    PairStored(callers, start, 2);
  }

  // ---------- The second pair is stored half ----------

  ghost function Second(experiments: FetchId, polling: Option<TaskId>, aborted: set<TaskId>, torn: bool,
                        storer: Task, closer: Task, reader: Task): State {
    Four(Some(experiments), Some(0), polling, aborted, 2, torn, storer, GroupsOnly, closer, reader)
  }

  lemma SecondFetch(polling: Option<TaskId>)
    ensures Leads(FirstStored(polling), Fetch(0),
                  Storing(polling, Some(0), Some(0), 2, WantsExperiments(1)))
    ensures Leads(Storing(polling, Some(0), Some(0), 2, WantsExperiments(1)), ReadGroupsOnly(1),
                  Second(0, polling, {}, false, WantsExperiments(1), Idle, Idle))
  {
    StorerTurns(Idle, Idle, Idle, Idle, WantsExperiments(1));
    OnlyTurns(WantsExperiments(1), Idle, Idle, Idle, GroupsOnly);
  }

  lemma SecondStores(polling: Option<TaskId>)
    ensures Leads(Second(0, polling, {}, false, WantsExperiments(1), Idle, Idle), StoreExperiments(0),
                  Second(1, polling, {}, false, StoredExperiments(1), Idle, Idle))
    ensures Leads(Second(1, polling, {}, false, StoredExperiments(1), Idle, Idle), StartRead(3),
                  Second(1, polling, {}, false, StoredExperiments(1), Idle, ReaderWaits))
  {
    StorerTurns(WantsExperiments(1), GroupsOnly, Idle, Idle, StoredExperiments(1));
    ReaderTurns(StoredExperiments(1), GroupsOnly, Idle, Idle, ReaderWaits);
  }

  /** While someone reads the groups alone, a second pair is stored half, and a reader of both
      waits behind it. */
  lemma SecondHalf(callers: Callers, polling: Option<TaskId>)
    requires ReachableUnder(callers, FirstStored(polling))
    ensures ReachableUnder(callers, Second(1, polling, {}, false, StoredExperiments(1), Idle, ReaderWaits))
  {
    SecondFetch(polling);
    SecondStores(polling);
    Onwards(callers, FirstStored(polling), Fetch(0),
            Storing(polling, Some(0), Some(0), 2, WantsExperiments(1)));
    Onwards(callers, Storing(polling, Some(0), Some(0), 2, WantsExperiments(1)), ReadGroupsOnly(1),
            Second(0, polling, {}, false, WantsExperiments(1), Idle, Idle));
    Onwards(callers, Second(0, polling, {}, false, WantsExperiments(1), Idle, Idle), StoreExperiments(0),
            Second(1, polling, {}, false, StoredExperiments(1), Idle, Idle));
    Onwards(callers, Second(1, polling, {}, false, StoredExperiments(1), Idle, Idle), StartRead(3),
            Second(1, polling, {}, false, StoredExperiments(1), Idle, ReaderWaits));
  }

  lemma ReaderSteps(aborted: set<TaskId>, closer: Task)
    requires closer.Idle? || closer.CloserInHandle?
    ensures Leads(Second(1, None, aborted, true, Idle, closer, ReaderWaits), ReadExperiments(3),
                  Second(1, None, aborted, true, Idle, closer, ReaderInExperiments))
    ensures Leads(Second(1, None, aborted, true, Idle, closer, ReaderInExperiments), ReadGroups(3),
                  Second(1, None, aborted, true, Idle, closer, ReaderInBoth))
  {
    ReaderTurns(Idle, GroupsOnly, closer, ReaderWaits, ReaderInExperiments);
    ReaderTurns(Idle, GroupsOnly, closer, ReaderInExperiments, ReaderInBoth);
  }

  /** The reader comes in, and the halves are of different fetches. */
  lemma ReaderComesIn(callers: Callers, aborted: set<TaskId>, closer: Task) returns (s: State)
    requires closer.Idle? || closer.CloserInHandle?
    requires ReachableUnder(callers, Second(1, None, aborted, true, Idle, closer, ReaderWaits))
    ensures ReachableUnder(callers, s) && !Consistent(s)
  {
    ReaderSteps(aborted, closer);
    Onwards(callers, Second(1, None, aborted, true, Idle, closer, ReaderWaits), ReadExperiments(3),
            Second(1, None, aborted, true, Idle, closer, ReaderInExperiments));
    s := Second(1, None, aborted, true, Idle, closer, ReaderInBoth);
    Onwards(callers, Second(1, None, aborted, true, Idle, closer, ReaderInExperiments), ReadGroups(3), s);
    assert s.tasks[3] == ReaderInBoth;
  }

  // ---------- Giving up a call ----------

  lemma AbandoningStep()
    ensures Leads(Second(1, None, {}, false, StoredExperiments(1), Idle, ReaderWaits), Cancel(0),
                  Second(1, None, {}, true, Idle, Idle, ReaderWaits))
  {
    StorerTurns(StoredExperiments(1), GroupsOnly, Idle, ReaderWaits, Idle);
  }

  /** A caller that gives up fetching and storing can do so between the two stores; nobody closes
      or polls. */
  lemma TornByAbandoning(callers: Callers) returns (s: State)
    requires callers.abandon
    ensures ReachableUnder(callers, s) && !Consistent(s)
  {
    FirstPair(callers);
    SecondHalf(callers, None);
    AbandoningStep();
    Onwards(callers, Second(1, None, {}, false, StoredExperiments(1), Idle, ReaderWaits), Cancel(0),
            Second(1, None, {}, true, Idle, Idle, ReaderWaits));
    s := ReaderComesIn(callers, {}, Idle);
  }

  // ---------- Closing ----------

  lemma PollingStep()
    ensures Leads(FirstStored(None), StartPolling(2, 0), FirstStored(Some(0)))
  {
  }

  lemma ClosingStep()
    ensures Leads(Second(1, Some(0), {}, false, StoredExperiments(1), Idle, ReaderWaits), StartClose(2),
                  Second(1, Some(0), {}, false, StoredExperiments(1), CloserWaits, ReaderWaits))
  {
    CloserTurns(StoredExperiments(1), GroupsOnly, Idle, ReaderWaits, CloserWaits);
  }

  lemma AbortingStep()
    ensures Leads(Second(1, Some(0), {}, false, StoredExperiments(1), CloserWaits, ReaderWaits), TakeHandle(2),
                  Second(1, None, {0}, false, StoredExperiments(1), CloserInHandle, ReaderWaits))
  {
    CloserTurns(StoredExperiments(1), GroupsOnly, CloserWaits, ReaderWaits, CloserInHandle);
    assert {} + {0 as TaskId} == {0};
  }

  lemma DroppingStep()
    ensures Leads(Second(1, None, {0}, false, StoredExperiments(1), CloserInHandle, ReaderWaits), Drop(0),
                  Second(1, None, {0}, true, Idle, CloserInHandle, ReaderWaits))
  {
    StorerTurns(StoredExperiments(1), GroupsOnly, CloserInHandle, ReaderWaits, Idle);
  }

  /** A caller that closes aborts the poll, which can be between its two stores; the reader comes
      in before the closer clears the experiments. Nobody gives up a call. */
  lemma TornByClosing(callers: Callers) returns (s: State)
    requires callers.close
    ensures ReachableUnder(callers, s) && !Consistent(s)
  {
    FirstPair(callers);
    PollingStep();
    Onwards(callers, FirstStored(None), StartPolling(2, 0), FirstStored(Some(0)));
    SecondHalf(callers, Some(0));
    ClosingStep();
    AbortingStep();
    DroppingStep();
    Onwards(callers, Second(1, Some(0), {}, false, StoredExperiments(1), Idle, ReaderWaits), StartClose(2),
            Second(1, Some(0), {}, false, StoredExperiments(1), CloserWaits, ReaderWaits));
    Onwards(callers, Second(1, Some(0), {}, false, StoredExperiments(1), CloserWaits, ReaderWaits), TakeHandle(2),
            Second(1, None, {0}, false, StoredExperiments(1), CloserInHandle, ReaderWaits));
    Onwards(callers, Second(1, None, {0}, false, StoredExperiments(1), CloserInHandle, ReaderWaits), Drop(0),
            Second(1, None, {0}, true, Idle, CloserInHandle, ReaderWaits));
    s := ReaderComesIn(callers, {0}, CloserInHandle);
  }

  // ---------- Exactly the quiet callers ----------

  /** Readers of both halves always see one fetch, in every run of such callers, exactly when the
      callers neither close the configuration nor give up a call that fetches and stores. */
  lemma SnapshotHoldsIff(callers: Callers)
    ensures (forall s :: ReachableUnder(callers, s) ==> Consistent(s)) <==> !callers.close && !callers.abandon
  {
    if callers.close {
      var s := TornByClosing(callers);
      assert ReachableUnder(callers, s);
    } else if callers.abandon {
      var s := TornByAbandoning(callers);
      assert ReachableUnder(callers, s);
    } else {
      forall s | ReachableUnder(callers, s) ensures Consistent(s) {
        assert callers == Callers(false, false);
        QuietCallersAreSafe(s);
      }
    }
  }
}
