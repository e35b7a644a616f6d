/** The client's shared configuration and its cache, as the steps of concurrent tasks. A step
    is what a task does without waiting; between steps any other task may run. */
module CacheProtocol {
  import opened Wrappers
  import opened JsonValues
  import opened Configuration
  import opened CacheKey

  type Resolved = map<string, Json>
  type TaskId = nat

  /** What the protocol needs to know of requests: their cache keys, and their answers on a
      configuration. */
  datatype Service = Service(keyOf: Request -> string, answer: (Config, Request) -> Resolved)

  // ---------- States ----------

  datatype Task =
    | Idle
    | Missed(request: Request)                                 // waits for the configuration, to read
    | Reading(request: Request)                                // reads the configuration
    | Filled                                                   // reads the configuration, answer cached
    | Copying                                                  // reads the configuration, to copy it
    | Fetching                                                 // reads the modification time, request sent
    | Fetched(body: Option<Config>, modified: Option<int>)     // waits for the configuration, to write
    | Updating(body: Option<Config>, modified: Option<int>)    // writes; waits for the modification time
    | Parsing(body: Option<Config>, modified: Option<int>)     // writes both; waits for the body
    | Stored(modified: Option<int>)                            // writes both, configuration assigned
    | Cleared(modified: Option<int>)                           // writes both, cache invalidated
    | Leaving                                                  // writes both, nothing left to do
    | Closing                                                  // writes the configuration only

  predicate ReadsConfig(task: Task) {
    task.Reading? || task.Filled? || task.Copying?
  }

  predicate WritesModified(task: Task) {
    task.Parsing? || task.Stored? || task.Cleared? || task.Leaving?
  }

  predicate WritesConfig(task: Task) {
    task.Updating? || task.Closing? || WritesModified(task)
  }

  /** `published` is what readers were last given to see: it follows `config` when the write
      guard is released. */
  datatype State = State(
    config: Config,
    published: Config,
    lastModified: int,
    cache: map<string, Resolved>,
    tasks: map<TaskId, Task>)

  ghost predicate Initial(s: State) {
    s.config == s.published && s.cache == map[] && forall t :: t in s.tasks ==> s.tasks[t].Idle?
  }

  // ---------- Steps ----------

  datatype Step =
    | Hit(t: TaskId, request: Request, value: Resolved)
    | Miss(t: TaskId, request: Request)
    | AcquireRead(t: TaskId)
    | Fill(t: TaskId)
    | StartCopy(t: TaskId)
    | ReleaseRead(t: TaskId)
    | StartFetch(t: TaskId)
    | FetchFails(t: TaskId)
    | FetchSucceeds(t: TaskId, body: Option<Config>, modified: Option<int>)
    | AcquireWrite(t: TaskId)
    | AcquireModified(t: TaskId)
    | ParseFails(t: TaskId)
    | Store(t: TaskId)
    | Invalidate(t: TaskId)
    | Stamp(t: TaskId)
    | ReleaseModified(t: TaskId)
    | ReleaseWrite(t: TaskId)
    | Cancel(t: TaskId)
    | Evict(key: string)

  ghost predicate NoConfigWriter(s: State) {
    forall t :: t in s.tasks ==> !WritesConfig(s.tasks[t])
  }

  ghost predicate ConfigFree(s: State) {
    NoConfigWriter(s) && forall t :: t in s.tasks ==> !ReadsConfig(s.tasks[t])
  }

  ghost predicate NoModifiedWriter(s: State) {
    forall t :: t in s.tasks ==> !WritesModified(s.tasks[t])
  }

  ghost predicate ModifiedFree(s: State) {
    NoModifiedWriter(s) && forall t :: t in s.tasks ==> !s.tasks[t].Fetching?
  }

  /** A task that waits may be dropped there. */
  predicate Waits(task: Task) {
    task.Missed? || task.Fetching? || task.Fetched? || task.Updating? || task.Parsing?
  }

  ghost predicate Enabled(s: State, step: Step, service: Service) {
    if step.Evict? then true
    else
      step.t in s.tasks &&
      var task := s.tasks[step.t];
      match step
      case Hit(_, request, value) =>
        task.Idle? && service.keyOf(request) in s.cache && value == s.cache[service.keyOf(request)]
      case Miss(_, request) => task.Idle? && service.keyOf(request) !in s.cache
      case AcquireRead(_) => task.Missed? && NoConfigWriter(s)
      case Fill(_) => task.Reading?
      case StartCopy(_) => task.Idle? && NoConfigWriter(s)
      case ReleaseRead(_) => task.Filled? || task.Copying?
      case StartFetch(_) => task.Idle? && NoModifiedWriter(s)
      case FetchFails(_) => task.Fetching?
      case FetchSucceeds(_, _, _) => task.Fetching?
      case AcquireWrite(_) => task.Fetched? && ConfigFree(s)
      case AcquireModified(_) => task.Updating? && ModifiedFree(s)
      case ParseFails(_) => task.Parsing? && task.body.None?
      case Store(_) => task.Parsing? && task.body.Some?
      case Invalidate(_) => task.Stored?
      case Stamp(_) => task.Cleared?
      case ReleaseModified(_) => task.Leaving?
      case ReleaseWrite(_) => task.Closing?
      case Cancel(_) => Waits(task)
  }

  ghost function Apply(s: State, step: Step, service: Service): State
    requires Enabled(s, step, service)
  {
    match step
    case Evict(key) => s.(cache := s.cache - {key})
    case Hit(_, _, _) => s
    case Miss(t, request) => s.(tasks := s.tasks[t := Missed(request)])
    case AcquireRead(t) => s.(tasks := s.tasks[t := Reading(s.tasks[t].request)])
    case Fill(t) =>
      var request := s.tasks[t].request;
      s.(cache := s.cache[service.keyOf(request) := service.answer(s.config, request)], tasks := s.tasks[t := Filled])
    case StartCopy(t) => s.(tasks := s.tasks[t := Copying])
    case ReleaseRead(t) => s.(tasks := s.tasks[t := Idle])
    case StartFetch(t) => s.(tasks := s.tasks[t := Fetching])
    case FetchFails(t) => s.(tasks := s.tasks[t := Idle])
    case FetchSucceeds(t, body, modified) => s.(tasks := s.tasks[t := Fetched(body, modified)])
    case AcquireWrite(t) => s.(tasks := s.tasks[t := Updating(s.tasks[t].body, s.tasks[t].modified)])
    case AcquireModified(t) => s.(tasks := s.tasks[t := Parsing(s.tasks[t].body, s.tasks[t].modified)])
    case ParseFails(t) => s.(tasks := s.tasks[t := Leaving])
    case Store(t) => s.(config := s.tasks[t].body.value, tasks := s.tasks[t := Stored(s.tasks[t].modified)])
    case Invalidate(t) => s.(cache := map[], tasks := s.tasks[t := Cleared(s.tasks[t].modified)])
    case Stamp(t) =>
      var modified := s.tasks[t].modified;
      s.(lastModified := if modified.Some? then modified.value else s.lastModified, tasks := s.tasks[t := Leaving])
    case ReleaseModified(t) => s.(tasks := s.tasks[t := Closing])
    case ReleaseWrite(t) => s.(published := s.config, tasks := s.tasks[t := Idle])
    case Cancel(t) => s.(tasks := s.tasks[t := Idle])
  }

  ghost predicate CanRun(s: State, steps: seq<Step>, service: Service)
    decreases |steps|
  {
    steps == [] || (Enabled(s, steps[0], service) && CanRun(Apply(s, steps[0], service), steps[1..], service))
  }

  ghost function After(s: State, steps: seq<Step>, service: Service): State
    requires CanRun(s, steps, service)
    decreases |steps|
  {
    if steps == [] then s else After(Apply(s, steps[0], service), steps[1..], service)
  }

  // ---------- What every step keeps ----------

  /** Every cached value answers, on this configuration, some request with that cache key. */
  ghost predicate Coherent(config: Config, cache: map<string, Resolved>, service: Service) {
    forall key :: key in cache ==>
      exists request :: service.keyOf(request) == key && cache[key] == service.answer(config, request)
  }

  ghost predicate Exclusive(s: State) {
    forall t, u :: t in s.tasks && u in s.tasks && t != u && WritesConfig(s.tasks[t]) ==>
      !WritesConfig(s.tasks[u]) && !ReadsConfig(s.tasks[u])
  }

  /** What a writer knows of the configuration and the cache while it holds the guards. */
  ghost predicate WriterKnows(s: State, task: Task) {
    match task
    case Updating(_, _) => s.config == s.published
    case Parsing(_, _) => s.config == s.published
    case Cleared(_) => s.cache == map[]
    case Leaving => s.config == s.published || s.cache == map[]
    case Closing => s.config == s.published || s.cache == map[]
    case _ => true
  }

  ghost predicate Invariant(s: State, service: Service) {
    && Exclusive(s)
    && Coherent(s.published, s.cache, service)
    && (NoConfigWriter(s) ==> s.config == s.published)
    && (forall t :: t in s.tasks ==> WriterKnows(s, s.tasks[t]))
    && (forall t :: t in s.tasks && s.tasks[t].Fetching? ==> NoModifiedWriter(s))
  }

  /** A step changes at most the task that takes it, which gains a guard on the configuration
      only when that guard is free. */
  lemma StepChangesOneTask(s: State, step: Step, service: Service)
    requires Enabled(s, step, service)
    ensures var after := Apply(s, step, service);
            if step.Evict? then after.tasks == s.tasks
            else
              && step.t in s.tasks && step.t in after.tasks
              && after.tasks == s.tasks[step.t := after.tasks[step.t]]
              && (WritesConfig(after.tasks[step.t]) ==> WritesConfig(s.tasks[step.t]) || ConfigFree(s))
              && (ReadsConfig(after.tasks[step.t]) ==> ReadsConfig(s.tasks[step.t]) || NoConfigWriter(s))
              && (WritesConfig(s.tasks[step.t]) && !WritesConfig(after.tasks[step.t]) ==>
                step.ReleaseWrite? || step.Cancel?)
  {
    if step.Hit? {
      assert s.tasks == s.tasks[step.t := s.tasks[step.t]];
    }
  }

  lemma StepKeepsExclusive(s: State, step: Step, service: Service)
    requires Exclusive(s) && Enabled(s, step, service)
    ensures Exclusive(Apply(s, step, service))
  {
    StepChangesOneTask(s, step, service);
  }

  lemma StepKeepsCoherent(s: State, step: Step, service: Service)
    requires Invariant(s, service) && Enabled(s, step, service)
    ensures Coherent(Apply(s, step, service).published, Apply(s, step, service).cache, service)
  {
    var after := Apply(s, step, service);
    if step.Fill? {
      var request := s.tasks[step.t].request;
      assert ReadsConfig(s.tasks[step.t]);
      assert NoConfigWriter(s);
      assert after.cache[service.keyOf(request)] == service.answer(after.published, request);
    } else if step.ReleaseWrite? {
      assert WriterKnows(s, s.tasks[step.t]);
    } else {
      assert forall key :: key in after.cache ==> key in s.cache && after.cache[key] == s.cache[key];
    }
  }

  lemma StepKeepsPublished(s: State, step: Step, service: Service)
    requires Invariant(s, service) && Enabled(s, step, service) && NoConfigWriter(Apply(s, step, service))
    ensures Apply(s, step, service).config == Apply(s, step, service).published
  {
    var after := Apply(s, step, service);
    StepChangesOneTask(s, step, service);
    if !step.ReleaseWrite? && !step.Evict? {
      if WritesConfig(s.tasks[step.t]) {
        assert WriterKnows(s, s.tasks[step.t]);
      } else {
        forall u | u in s.tasks ensures !WritesConfig(s.tasks[u]) {
          assert u != step.t ==> after.tasks[u] == s.tasks[u];
        }
      }
    }
  }

  lemma StepKeepsKnowledge(s: State, step: Step, service: Service, u: TaskId)
    requires Invariant(s, service) && Enabled(s, step, service) && u in Apply(s, step, service).tasks
    ensures WriterKnows(Apply(s, step, service), Apply(s, step, service).tasks[u])
  {
    var after := Apply(s, step, service);
    StepChangesOneTask(s, step, service);
    assert u in s.tasks && WriterKnows(s, s.tasks[u]);
    if step.Evict? {
      assert s.cache == map[] ==> after.cache == map[];
    } else if u != step.t && WritesConfig(s.tasks[u]) {
      assert !WritesConfig(s.tasks[step.t]) && !ReadsConfig(s.tasks[step.t]);
      assert after.config == s.config && after.published == s.published && after.cache == s.cache;
    }
  }

  lemma StepKeepsFetching(s: State, step: Step, service: Service, u: TaskId)
    requires Invariant(s, service) && Enabled(s, step, service)
    requires u in Apply(s, step, service).tasks && Apply(s, step, service).tasks[u].Fetching?
    ensures NoModifiedWriter(Apply(s, step, service))
  {
    StepChangesOneTask(s, step, service);
  }

  /** Whatever task takes whatever step, the invariant holds afterwards. */
  lemma StepKeepsInvariant(s: State, step: Step, service: Service)
    requires Invariant(s, service) && Enabled(s, step, service)
    ensures Invariant(Apply(s, step, service), service)
  {
    var after := Apply(s, step, service);
    StepKeepsExclusive(s, step, service);
    StepKeepsCoherent(s, step, service);
    if NoConfigWriter(after) {
      StepKeepsPublished(s, step, service);
    }
    forall u | u in after.tasks
      ensures WriterKnows(after, after.tasks[u])
      ensures after.tasks[u].Fetching? ==> NoModifiedWriter(after)
    {
      StepKeepsKnowledge(s, step, service, u);
      if after.tasks[u].Fetching? {
        StepKeepsFetching(s, step, service, u);
      }
    }
  }

  lemma {:induction false} RunKeepsInvariant(s: State, steps: seq<Step>, service: Service)
    requires Invariant(s, service) && CanRun(s, steps, service)
    ensures Invariant(After(s, steps, service), service)
    decreases |steps|
  {
    if steps != [] {
      StepKeepsInvariant(s, steps[0], service);
      RunKeepsInvariant(Apply(s, steps[0], service), steps[1..], service);
    }
  }

  // ---------- What holds in every run ----------

  ghost predicate Reaches(s: State, after: State, service: Service) {
    exists steps :: CanRun(s, steps, service) && After(s, steps, service) == after
  }

  ghost predicate Reachable(s: State, service: Service) {
    exists start :: Initial(start) && Reaches(start, s, service)
  }

  lemma ReachableKeepsInvariant(s: State, service: Service)
    requires Reachable(s, service)
    ensures Invariant(s, service)
  {
    var start :| Initial(start) && Reaches(start, s, service);
    var steps :| CanRun(start, steps, service) && After(start, steps, service) == s;
    RunKeepsInvariant(start, steps, service);
  }

  /** However the tasks interleave, whatever is evicted, and whether or not bodies parse, the
      cache only ever holds answers of the published configuration. */
  lemma CacheIsNeverStale(s: State, service: Service)
    requires Reachable(s, service)
    ensures Coherent(s.published, s.cache, service)
  {
    ReachableKeepsInvariant(s, service);
  }

  /** A task that reads the configuration sees the published one. */
  lemma ReadersSeePublished(s: State, service: Service, t: TaskId)
    requires Reachable(s, service) && t in s.tasks && ReadsConfig(s.tasks[t])
    ensures s.config == s.published
  {
    ReachableKeepsInvariant(s, service);
    forall u | u in s.tasks ensures !WritesConfig(s.tasks[u]) {
      assert u == t ==> !WritesConfig(s.tasks[t]);
    }
  }

  /** Some run reaches a state that publishes `config` and answers `request` with `value` from
      the cache. */
  ghost predicate HitPossible(config: Config, request: Request, value: Resolved, service: Service) {
    exists s, t :: Reachable(s, service) && s.published == config && Enabled(s, Hit(t, request, value), service)
  }

  /** A lookup made outside every lock returns the published configuration's answer to some
      request that shares the cache key, and any of those answers may be returned. */
  lemma HitValues(config: Config, request: Request, value: Resolved, service: Service)
    ensures HitPossible(config, request, value, service)
       <==> exists other :: service.keyOf(other) == service.keyOf(request) && value == service.answer(config, other)
  {
    if HitPossible(config, request, value, service) {
      var s, t :| Reachable(s, service) && s.published == config && Enabled(s, Hit(t, request, value), service);
      CacheIsNeverStale(s, service);
    }
    if other :| service.keyOf(other) == service.keyOf(request) && value == service.answer(config, other) {
      var s := AnswerCached(config, other, service);
      assert Enabled(s, Hit(0, request, value), service);
    }
  }

  lemma AnswerCached(config: Config, request: Request, service: Service) returns (s: State)
    ensures Reachable(s, service) && s.published == config && 0 in s.tasks && s.tasks[0].Idle?
    ensures service.keyOf(request) in s.cache && s.cache[service.keyOf(request)] == service.answer(config, request)
  {
    var start := AtRest(config, 0, map[]);
    MissRun(config, 0, map[], request, service);
    s := AtRest(config, 0, map[service.keyOf(request) := service.answer(config, request)]);
    assert Initial(start);
    assert map[][service.keyOf(request) := service.answer(config, request)]
        == map[service.keyOf(request) := service.answer(config, request)];
  }

  lemma ReachesItself(s: State, service: Service)
    ensures Reaches(s, s, service)
  {
    assert CanRun(s, [], service) && After(s, [], service) == s;
  }

  lemma TakeStep(start: State, s: State, step: Step, service: Service) returns (after: State)
    requires Reaches(start, s, service) && Enabled(s, step, service)
    ensures Reaches(start, after, service) && after == Apply(s, step, service)
  {
    after := Apply(s, step, service);
    var steps :| CanRun(start, steps, service) && After(start, steps, service) == s;
    OneMoreStep(start, steps, step, service);
  }

  lemma {:induction false} OneMoreStep(s: State, steps: seq<Step>, step: Step, service: Service)
    requires CanRun(s, steps, service) && Enabled(After(s, steps, service), step, service)
    ensures CanRun(s, steps + [step], service)
    ensures After(s, steps + [step], service) == Apply(After(s, steps, service), step, service)
    decreases |steps|
  {
    var longer := steps + [step];
    if steps == [] {
      assert longer[1..] == [];
    } else {
      OneMoreStep(Apply(s, steps[0], service), steps[1..], step, service);
      assert longer[1..] == steps[1..] + [step];
    }
  }

  // ---------- One task running on its own ----------

  /** The configuration, the modification time and the cache, and one task beside them. */
  ghost function Lone(config: Config, published: Config, lastModified: int, cache: map<string, Resolved>, task: Task)
    : State
  {
    State(config, published, lastModified, cache, map[0 := task])
  }

  ghost function AtRest(config: Config, lastModified: int, cache: map<string, Resolved>): State {
    Lone(config, config, lastModified, cache, Idle)
  }

  ghost predicate Leads(s: State, step: Step, after: State, service: Service) {
    Enabled(s, step, service) && Apply(s, step, service) == after
  }

  lemma Onwards(start: State, s: State, step: Step, after: State, service: Service)
    requires Reaches(start, s, service) && Leads(s, step, after, service)
    ensures Reaches(start, after, service)
  {
    var reached := TakeStep(start, s, step, service);
  }

  lemma LoneTasks(before: Task, after: Task)
    ensures map[0 := before][0 := after] == map[0 as TaskId := after]
  {
  }

  lemma MissSteps(config: Config, lastModified: int, cache: map<string, Resolved>, request: Request, service: Service)
    requires service.keyOf(request) !in cache
    ensures var missed := Lone(config, config, lastModified, cache, Missed(request));
            var reading := Lone(config, config, lastModified, cache, Reading(request));
            var answered := cache[service.keyOf(request) := service.answer(config, request)];
            var filled := Lone(config, config, lastModified, answered, Filled);
            && Leads(AtRest(config, lastModified, cache), Miss(0, request), missed, service)
            && Leads(missed, AcquireRead(0), reading, service)
            && Leads(reading, Fill(0), filled, service)
            && Leads(filled, ReleaseRead(0), AtRest(config, lastModified, answered), service)
  {
    LoneTasks(Idle, Missed(request));
    LoneTasks(Missed(request), Reading(request));
    LoneTasks(Reading(request), Filled);
    LoneTasks(Filled, Idle);
  }

  lemma MissRun(config: Config, lastModified: int, cache: map<string, Resolved>, request: Request, service: Service)
    requires service.keyOf(request) !in cache
    ensures Reaches(AtRest(config, lastModified, cache),
                    AtRest(config, lastModified, cache[service.keyOf(request) := service.answer(config, request)]),
                      service)
  {
    var start := AtRest(config, lastModified, cache);
    var missed := Lone(config, config, lastModified, cache, Missed(request));
    var reading := Lone(config, config, lastModified, cache, Reading(request));
    var answered := cache[service.keyOf(request) := service.answer(config, request)];
    var filled := Lone(config, config, lastModified, answered, Filled);
    MissSteps(config, lastModified, cache, request, service);
    ReachesItself(start, service);
    Onwards(start, start, Miss(0, request), missed, service);
    Onwards(start, missed, AcquireRead(0), reading, service);
    Onwards(start, reading, Fill(0), filled, service);
    Onwards(start, filled, ReleaseRead(0), AtRest(config, lastModified, answered), service);
  }

  lemma FetchSteps(config: Config, lastModified: int, cache: map<string, Resolved>,
                   body: Option<Config>, modified: Option<int>, service: Service)
    ensures var fetching := Lone(config, config, lastModified, cache, Fetching);
            var fetched := Lone(config, config, lastModified, cache, Fetched(body, modified));
            var updating := Lone(config, config, lastModified, cache, Updating(body, modified));
            var parsing := Lone(config, config, lastModified, cache, Parsing(body, modified));
            && Leads(AtRest(config, lastModified, cache), StartFetch(0), fetching, service)
            && Leads(fetching, FetchSucceeds(0, body, modified), fetched, service)
            && Leads(fetched, AcquireWrite(0), updating, service)
            && Leads(updating, AcquireModified(0), parsing, service)
  {
    LoneTasks(Idle, Fetching);
    LoneTasks(Fetching, Fetched(body, modified));
    AcquireSteps(config, lastModified, cache, body, modified, service);
  }

  lemma AcquireSteps(config: Config, lastModified: int, cache: map<string, Resolved>,
                     body: Option<Config>, modified: Option<int>, service: Service)
    ensures var fetched := Lone(config, config, lastModified, cache, Fetched(body, modified));
            var updating := Lone(config, config, lastModified, cache, Updating(body, modified));
            var parsing := Lone(config, config, lastModified, cache, Parsing(body, modified));
            && Leads(fetched, AcquireWrite(0), updating, service)
            && Leads(updating, AcquireModified(0), parsing, service)
  {
    LoneTasks(Fetched(body, modified), Updating(body, modified));
    LoneTasks(Updating(body, modified), Parsing(body, modified));
  }

  lemma FetchRun(config: Config, lastModified: int, cache: map<string, Resolved>,
                 body: Option<Config>, modified: Option<int>, service: Service)
    ensures Reaches(AtRest(config, lastModified, cache),
                    Lone(config, config, lastModified, cache, Parsing(body, modified)), service)
  {
    var start := AtRest(config, lastModified, cache);
    var fetching := Lone(config, config, lastModified, cache, Fetching);
    var fetched := Lone(config, config, lastModified, cache, Fetched(body, modified));
    var updating := Lone(config, config, lastModified, cache, Updating(body, modified));
    FetchSteps(config, lastModified, cache, body, modified, service);
    ReachesItself(start, service);
    Onwards(start, start, StartFetch(0), fetching, service);
    Onwards(start, fetching, FetchSucceeds(0, body, modified), fetched, service);
    Onwards(start, fetched, AcquireWrite(0), updating, service);
    Onwards(start, updating, AcquireModified(0), Lone(config, config, lastModified, cache, Parsing(body, modified)),
            service);
  }

  /** From both guards held to none. */
  lemma LeavingRun(start: State, config: Config, published: Config, lastModified: int, cache: map<string, Resolved>,
                   service: Service)
    requires Reaches(start, Lone(config, published, lastModified, cache, Leaving), service)
    ensures Reaches(start, AtRest(config, lastModified, cache), service)
  {
    var leaving := Lone(config, published, lastModified, cache, Leaving);
    var closing := Lone(config, published, lastModified, cache, Closing);
    LoneTasks(Leaving, Closing);
    LoneTasks(Closing, Idle);
    Onwards(start, leaving, ReleaseModified(0), closing, service);
    Onwards(start, closing, ReleaseWrite(0), AtRest(config, lastModified, cache), service);
  }

  lemma FailedParseRun(config: Config, lastModified: int, cache: map<string, Resolved>,
                       modified: Option<int>, service: Service)
    ensures Reaches(AtRest(config, lastModified, cache), AtRest(config, lastModified, cache), service)
  {
    var start := AtRest(config, lastModified, cache);
    var parsing := Lone(config, config, lastModified, cache, Parsing(None, modified));
    var leaving := Lone(config, config, lastModified, cache, Leaving);
    FetchRun(config, lastModified, cache, None, modified, service);
    assert Leads(parsing, ParseFails(0), leaving, service);
    Onwards(start, parsing, ParseFails(0), leaving, service);
    LeavingRun(start, config, config, lastModified, cache, service);
  }

  lemma UpdateSteps(config: Config, lastModified: int, cache: map<string, Resolved>,
                    body: Config, modified: Option<int>, service: Service)
    ensures var parsing := Lone(config, config, lastModified, cache, Parsing(Some(body), modified));
            var stored := Lone(body, config, lastModified, cache, Stored(modified));
            var cleared := Lone(body, config, lastModified, map[], Cleared(modified));
            var stamp := if modified.Some? then modified.value else lastModified;
            && Leads(parsing, Store(0), stored, service)
            && Leads(stored, Invalidate(0), cleared, service)
            && Leads(cleared, Stamp(0), Lone(body, config, stamp, map[], Leaving), service)
  {
    LoneTasks(Parsing(Some(body), modified), Stored(modified));
    LoneTasks(Stored(modified), Cleared(modified));
    LoneTasks(Cleared(modified), Leaving);
  }

  lemma UpdateRun(config: Config, lastModified: int, cache: map<string, Resolved>,
                  body: Config, modified: Option<int>, service: Service)
    ensures Reaches(AtRest(config, lastModified, cache),
                    AtRest(body, if modified.Some? then modified.value else lastModified, map[]), service)
  {
    var start := AtRest(config, lastModified, cache);
    var parsing := Lone(config, config, lastModified, cache, Parsing(Some(body), modified));
    var stored := Lone(body, config, lastModified, cache, Stored(modified));
    var cleared := Lone(body, config, lastModified, map[], Cleared(modified));
    var stamp := if modified.Some? then modified.value else lastModified;
    FetchRun(config, lastModified, cache, Some(body), modified, service);
    UpdateSteps(config, lastModified, cache, body, modified, service);
    Onwards(start, parsing, Store(0), stored, service);
    Onwards(start, stored, Invalidate(0), cleared, service);
    Onwards(start, cleared, Stamp(0), Lone(body, config, stamp, map[], Leaving), service);
    LeavingRun(start, body, config, stamp, map[], service);
  }

  // ---------- No reachable state is stuck ----------

  /** The task is under way and needs no guard, or needs one that nobody holds in any mode. */
  ghost predicate Proceeds(s: State, t: TaskId) {
    t in s.tasks &&
    match s.tasks[t]
    case Idle => false
    case Missed(_) => ConfigFree(s)
    case Fetched(_, _) => ConfigFree(s)
    case Updating(_, _) => ModifiedFree(s)
    case _ => true
  }

  lemma ProceedsByStep(s: State, t: TaskId, service: Service) returns (step: Step)
    requires Proceeds(s, t)
    ensures !step.Evict? && !step.Cancel? && step.t == t && Enabled(s, step, service)
  {
    step := match s.tasks[t]
      case Missed(_) => AcquireRead(t)
      case Reading(_) => Fill(t)
      case Filled => ReleaseRead(t)
      case Copying => ReleaseRead(t)
      case Fetching => FetchFails(t)
      case Fetched(_, _) => AcquireWrite(t)
      case Updating(_, _) => AcquireModified(t)
      case Parsing(body, _) => if body.None? then ParseFails(t) else Store(t)
      case Stored(_) => Invalidate(t)
      case Cleared(_) => Stamp(t)
      case Leaving => ReleaseModified(t)
      case Closing => ReleaseWrite(t);
  }

  /** Whenever some task is under way, some task can go on without waiting for another. */
  lemma NeverStuck(s: State, service: Service, busy: TaskId) returns (t: TaskId)
    requires Reachable(s, service) && busy in s.tasks && !s.tasks[busy].Idle?
    ensures Proceeds(s, t)
  {
    ReachableKeepsInvariant(s, service);
    t := busy;
    if writer :| writer in s.tasks && WritesConfig(s.tasks[writer]) {
      t := writer;
      if s.tasks[writer].Updating? {
        assert NoModifiedWriter(s) by {
          forall u | u in s.tasks ensures !WritesModified(s.tasks[u]) {
            assert u != writer ==> !WritesConfig(s.tasks[u]);
          }
        }
        if fetcher :| fetcher in s.tasks && s.tasks[fetcher].Fetching? {
          t := fetcher;
        }
      }
    } else if reader :| reader in s.tasks && ReadsConfig(s.tasks[reader]) {
      t := reader;
    }
  }
}
