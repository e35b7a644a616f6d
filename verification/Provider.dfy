/** The provider's object for experiments: what its methods store and return when no other
    task runs in between. */
module Provider {
  import opened Wrappers
  import opened JsonValues
  import opened Configuration
  import opened Experiments
  import opened Admissions
  import Protocol = SnapshotProtocol

  /** The outcome of fetching one half: an error, or possibly nothing. */
  type Fetched<T> = Result<Option<T>>

  class ExperimentationConfig {
    const polls: bool
    const expand: Expansion
    const hash: Hashing
    var cachedExperiments: Option<seq<Experiment>>
    var cachedGroups: Option<seq<ExperimentGroup>>
    var lastUpdated: Option<int>
    var pollingTask: Option<nat>

    /** The pairs stored so far, and which of them each cached half is from. */
    ghost var stored: seq<(seq<Experiment>, seq<ExperimentGroup>)>
    ghost var experimentsFrom: Option<nat>
    ghost var groupsFrom: Option<nat>

    /** The tasks that use the object, and those of them that were told to stop. */
    ghost const tasks: set<nat>
    ghost var aborted: set<nat>

    /** The object at rest, as a state of the protocol. */
    ghost function View(): Protocol.State
      reads this
    {
      Protocol.State(experimentsFrom, groupsFrom, pollingTask, aborted, |stored|, false,
                     map t | t in tasks :: Protocol.Idle)
    }

    /** Whatever is cached is a half of a stored pair; the groups are those of the last one, and
        so are the experiments if both are cached. */
    ghost predicate Valid()
      reads this
    {
      && (cachedExperiments.Some? <==> experimentsFrom.Some?) && (cachedGroups.Some? <==> groupsFrom.Some?)
      && (experimentsFrom.Some? ==> groupsFrom == experimentsFrom)
      && (groupsFrom.Some? ==> groupsFrom.value == |stored| - 1 && cachedGroups.value == stored[groupsFrom.value].1)
      && (experimentsFrom.Some? ==> cachedExperiments.value == stored[|stored| - 1].0)
    }

    constructor (polls: bool, expand: Expansion, hash: Hashing, ghost tasks: set<nat>)
      ensures Valid() && this.polls == polls && this.expand == expand && this.hash == hash && this.tasks == tasks
      ensures cachedExperiments == None && cachedGroups == None && lastUpdated == None && pollingTask == None
      ensures aborted == {} && Protocol.Initial(View())
    {
      this.polls, this.expand, this.hash, this.tasks := polls, expand, hash, tasks;
      cachedExperiments, cachedGroups, lastUpdated, pollingTask := None, None, None, None;
      stored, experimentsFrom, groupsFrom, aborted := [], None, None, {};
    }

    /** Stores both halves of a pair. */
    method Store(experiments: seq<Experiment>, groups: seq<ExperimentGroup>, now: int, ghost caller: nat)
      requires Valid() && caller in tasks && caller !in aborted
      modifies this
      ensures Valid() && pollingTask == old(pollingTask) && aborted == old(aborted)
      ensures cachedExperiments == Some(experiments) && cachedGroups == Some(groups) && lastUpdated == Some(now)
      ensures stored == old(stored) + [(experiments, groups)]
      ensures Protocol.Reaches(old(View()), View())
    {
      Protocol.StoreRun(View(), caller);
      cachedExperiments := Some(experiments);
      cachedGroups := Some(groups);
      lastUpdated := Some(now);
      experimentsFrom, groupsFrom := Some(|stored|), Some(|stored|);
      stored := stored + [(experiments, groups)];
    }

    /** One poll: stores a pair of which both halves arrived, and nothing otherwise. */
    method Poll(experiments: Fetched<seq<Experiment>>, groups: Fetched<seq<ExperimentGroup>>, now: int,
                ghost poller: nat)
      requires Valid() && poller in tasks && poller !in aborted
      modifies this
      ensures Valid() && pollingTask == old(pollingTask) && aborted == old(aborted)
      ensures var both := experiments.Success? && experiments.value.Some? && groups.Success? && groups.value.Some?;
              if both then
                && cachedExperiments == experiments.value && cachedGroups == groups.value && lastUpdated == Some(now)
                && stored == old(stored) + [(experiments.value.value, groups.value.value)]
              else
                && cachedExperiments == old(cachedExperiments) && cachedGroups == old(cachedGroups)
                && lastUpdated == old(lastUpdated) && stored == old(stored)
      ensures Protocol.Reaches(old(View()), View())
    {
      Protocol.ReachesItself(View());
      if experiments.Success? && experiments.value.Some? && groups.Success? && groups.value.Some? {
        Store(experiments.value.value, groups.value.value, now, poller);
      }
    }

    /** The initial fetch: like a poll, but an error or a missing half is reported, and without
        one polling starts as the options say. */
    method CreateConfig(experiments: Fetched<seq<Experiment>>, groups: Fetched<seq<ExperimentGroup>>,
                        now: int, task: nat, ghost caller: nat)
      returns (result: Result<()>)
      requires Valid() && caller in tasks && caller !in aborted && task in tasks
      modifies this
      ensures Valid() && aborted == old(aborted)
      ensures result.Success? <==>
        experiments.Success? && groups.Success? && (experiments.value.Some? <==> groups.value.Some?)
      ensures experiments.Failure? ==> result == Failure(experiments.error)
      ensures experiments.Success? && groups.Failure? ==> result == Failure(groups.error)
      ensures pollingTask == if result.Success? && polls then Some(task) else old(pollingTask)
      ensures result.Success? && experiments.value.Some? ==>
        && cachedExperiments == experiments.value && cachedGroups == groups.value && lastUpdated == Some(now)
        && stored == old(stored) + [(experiments.value.value, groups.value.value)]
      ensures !(result.Success? && experiments.value.Some?) ==>
        && cachedExperiments == old(cachedExperiments) && cachedGroups == old(cachedGroups)
        && lastUpdated == old(lastUpdated) && stored == old(stored)
      ensures Protocol.Reaches(old(View()), View())
    {
      Protocol.ReachesItself(View());
      if experiments.Failure? {
        return Failure(experiments.error);
      } else if groups.Failure? {
        return Failure(groups.error);
      } else if experiments.value.Some? && groups.value.Some? {
        Store(experiments.value.value, groups.value.value, now, caller);
      } else if experiments.value.Some? || groups.value.Some? {
        return Failure("Failed to fetch either experiments or experiment groups");
      }
      if polls {
        Protocol.PollingRun(old(View()), View(), caller, task);
        pollingTask := Some(task);
      }
      return Success(());
    }

    /** Stops polling and forgets the experiments; the groups stay. */
    method Close(ghost caller: nat) returns (task: Option<nat>)
      requires Valid() && caller in tasks && caller !in aborted
      modifies this
      ensures Valid()
      ensures task == old(pollingTask) && pollingTask == None
      ensures aborted == old(aborted) + if task.Some? then {task.value} else {}
      ensures cachedExperiments == None && cachedGroups == old(cachedGroups)
      ensures lastUpdated == old(lastUpdated) && stored == old(stored)
      ensures Protocol.Reaches(old(View()), View())
    {
      Protocol.CloseRun(View(), caller);
      task := pollingTask;
      if task.Some? {
        aborted := aborted + {task.value};
      }
      pollingTask := None;
      cachedExperiments, experimentsFrom := None, None;
    }

    /** The variants that the groups of the last stored pair give the identifier, in the order of
        the groups, and none without one; an error unless both halves are cached. */
    method GetApplicableVariants(dimensions: Dimensions, context: map<string, Json>,
                                 identifier: Option<string>)
      returns (result: Result<seq<string>>, ghost places: seq<nat>)
      requires Valid()
      ensures result.Success? <==> cachedExperiments.Some? && cachedGroups.Some?
      ensures result.Success? ==> stored != []
      ensures result.Success? && (identifier == None || identifier == Some("")) ==> result.value == []
      ensures result.Success? && identifier.Some? && identifier.value != "" ==>
        var (experiments, groups) := stored[|stored| - 1];
        GivenAt(experiments, groups, expand(dimensions, context), identifier.value, hash, result.value, places)
    {
      places := [];
      if cachedExperiments.None? || cachedGroups.None? {
        return Failure("No cached experiments or experiment groups available"), places;
      }
      var id := if identifier.Some? then identifier.value else "";
      var completed := expand(dimensions, context);
      places := VariantsAreGiven(cachedExperiments.value, cachedGroups.value, completed, id, hash);
      return Success(ApplicableVariants(cachedExperiments.value, cachedGroups.value, completed, id, hash)), places;
    }
  }
}
