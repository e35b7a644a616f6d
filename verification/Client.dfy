/** The client object: what its methods return and how they change its fields. Each method is
    one task's way through the protocol, with no other task in between. */
module Client {
  import opened Wrappers
  import opened JsonValues
  import opened Configuration
  import opened Matching
  import opened Resolution
  import opened ResolutionLaws
  import opened CacheKey
  import opened CacheProtocol

  const OK := 200
  const NOT_MODIFIED := 304

  /** What the server sends back, or that nothing came back. */
  datatype Response =
    | Unreachable(error: string)
    | Answered(status: nat, body: Option<Config>, modified: Option<int>)

  /** What a request resolves to: any given prefix list filters, even an empty one. */
  function Answer(config: Config, request: Request, expand: Expansion): Resolved {
    var narrowed :=
      if request.filterKeys.Some?
      then FilteredByPrefix(config, set key | key in request.filterKeys.value)
      else config;
    Resolve(narrowed, request.query, request.strategy, expand)
  }

  /** The real cache keys and answers. */
  ghost function ServiceOf(expand: Expansion): Service {
    Service(request => KeyOf(request), (config, request) => Answer(config, request, expand))
  }

  class Client {
    const tenant: string
    const expand: Expansion
    var config: Config
    var lastModified: int
    var cache: map<string, Resolved>

    /** The client at rest, as a state of the protocol with a single idle task. */
    ghost function View(): State
      reads this
    {
      AtRest(config, lastModified, cache)
    }

    ghost predicate Valid()
      reads this
    {
      Coherent(config, cache, ServiceOf(expand))
    }

    constructor (tenant: string, expand: Expansion, config: Config, modified: Option<int>)
      ensures Valid() && this.tenant == tenant && this.expand == expand
      ensures Initial(View()) && this.config == config
      ensures lastModified == if modified.Some? then modified.value else 0
    {
      this.tenant, this.expand, this.config := tenant, expand, config;
      this.lastModified := if modified.Some? then modified.value else 0;
      this.cache := map[];
    }

    /** Asks the server; anything but a fresh configuration is an error. */
    method Fetch(response: Response) returns (fetched: Result<Response>)
      ensures fetched.Success? <==> response.Answered? && response.status == 200
      ensures fetched.Success? ==> fetched.value == response
    {
      if response.Unreachable? {
        return Failure(response.error);
      }
      if response.status == NOT_MODIFIED {
        return Failure(tenant + " CAC: skipping update, remote not modified");
      } else if response.status == OK {
        return Success(response);
      } else {
        return Failure(tenant + " CAC: fetch failed");
      }
    }

    /** Replaces the configuration and empties the cache, unless the fetch fails or the body
        does not parse: then nothing changes. */
    method UpdateCac(response: Response) returns (result: Result<string>)
      requires Valid()
      modifies this
      ensures Valid()
      ensures result.Success? <==> response.Answered? && response.status == 200 && response.body.Some?
      ensures result.Failure? ==> config == old(config) && lastModified == old(lastModified) && cache == old(cache)
      ensures result.Success? ==> config == response.body.value && cache == map[]
      ensures result.Success? ==>
        lastModified == if response.modified.Some? then response.modified.value else old(lastModified)
      ensures Reaches(old(View()), View(), ServiceOf(expand))
    {
      var fetched := Fetch(response);
      if fetched.Failure? {
        ReachesItself(View(), ServiceOf(expand));
        return Failure(fetched.error);
      }
      var body, modified := fetched.value.body, fetched.value.modified;
      if body.None? {
        FailedParseRun(config, lastModified, cache, modified, ServiceOf(expand));
        return Failure("error decoding response body");
      }
      UpdateRun(config, lastModified, cache, body.value, modified, ServiceOf(expand));
      config := body.value;
      cache := map[];
      if modified.Some? {
        lastModified := modified.value;
      }
      return Success(tenant + ": CAC updated successfully");
    }

    /** Looks the request up and, failing that, resolves it and remembers the answer. */
    method GetResolvedConfig(request: Request) returns (result: Result<Resolved>)
      requires Valid()
      modifies this`cache
      ensures Valid()
      ensures KeyOf(request) in old(cache) ==> result == Success(old(cache)[KeyOf(request)]) && cache == old(cache)
      ensures KeyOf(request) !in old(cache) ==>
        && result == Success(Answer(config, request, expand))
        && cache == old(cache)[KeyOf(request) := Answer(config, request, expand)]
      ensures exists other :: KeyOf(other) == KeyOf(request) && result == Success(Answer(config, other, expand))
      ensures Reaches(old(View()), View(), ServiceOf(expand))
    {
      var key := HashKey(request);
      if key in cache {
        ReachesItself(View(), ServiceOf(expand));
        return Success(cache[key]);
      }
      var narrowed := config;
      if request.filterKeys.Some? {
        narrowed := FilterByPrefix(narrowed, set p | p in request.filterKeys.value);
      }
      var reported;
      result, reported := Evaluate(narrowed, request.query, request.strategy, expand);
      MissRun(config, lastModified, cache, request, ServiceOf(expand));
      cache := cache[key := result.value];
    }

    /** A copy of the configuration, filtered first by prefix and then, unless no values are
        given, by dimension values. */
    method GetFullConfigState(query: Option<map<string, Json>>, prefix: Option<seq<string>>)
      returns (result: Result<Config>)
      ensures var prefixed :=
                if prefix.Some? then FilteredByPrefix(config, set p | p in prefix.value) else config;
              result == Success(if query.Some? && query.value != map[]
                                then FilteredByDimensions(prefixed, query.value, expand)
                                else prefixed)
    {
      var copy := config;
      if prefix.Some? {
        copy := FilterByPrefix(copy, set p | p in prefix.value);
      }
      if query.Some? && query.value != map[] {
        copy := FilteredByDimensions(copy, query.value, expand);
      }
      result := Success(copy);
    }
  }

  /** Without a prefix list the answer is the resolved configuration; with one, even an empty one,
      it is the part of that whose keys continue one of the prefixes. */
  lemma AnswerRestricts(config: Config, request: Request, expand: Expansion)
    ensures var all := Resolve(config, request.query, request.strategy, expand);
            if request.filterKeys.Some?
            then RestrictedTo(all, Answer(config, request, expand), set p | p in request.filterKeys.value)
            else Answer(config, request, expand) == all
  {
    if request.filterKeys.Some? {
      var prefixes := set p | p in request.filterKeys.value;
      PrefixFilterRestricts(config, prefixes, request.query, request.strategy, expand);
    }
  }

  // ---------- Requests that share a key without meaning the same ----------

  /** Either of two requests that share a key can be served the other's answer. */
  lemma SharedKeyHit(config: Config, request: Request, other: Request, expand: Expansion)
    requires KeyOf(request) == KeyOf(other)
    ensures HitPossible(config, request, Answer(config, other, expand), ServiceOf(expand))
  {
    var service := ServiceOf(expand);
    assert service.keyOf(other) == service.keyOf(request);
    assert service.answer(config, other) == Answer(config, other, expand);
    HitValues(config, request, Answer(config, other, expand), service);
  }

  /** A caller that filters by the one prefix "null" shares the key of one that does not
      filter. */
  lemma NullFilterSharesKey(config: Config, strategy: MergeStrategy, expand: Expansion, key: string)
    requires key in config.defaultConfigs && !("null" <= key)
    ensures var plain := Request(map[], None, strategy);
            var filtered := Request(map[], Some(["null"]), strategy);
            && key in Answer(config, plain, expand) && key !in Answer(config, filtered, expand)
            && HitPossible(config, plain, Answer(config, filtered, expand), ServiceOf(expand))
  {
    var plain := Request(map[], None, strategy);
    var filtered := Request(map[], Some(["null"]), strategy);
    var keys := set k | k in filtered.filterKeys.value;
    assert keys == {"null"};
    assert First(keys) in keys;
    assert keys - {"null"} == {};
    assert InOrderOf(keys) == ["null"];
    SharedKeyHit(config, plain, filtered, expand);
  }

  const ONE_TWO := Array([Number("1"), Number("2")])
  const TWO_ONE := Array([Number("2"), Number("1")])

  lemma ItemOrderReordered()
    ensures Reordered(Object(map["d" := ONE_TWO]), Object(map["d" := TWO_ONE]))
  {
    var p: seq<nat> := [1, 0];
    assert Permutation(p, 2);
    assert forall i :: 0 <= i < 2 ==> Reordered(ONE_TWO.items[i], TWO_ONE.items[p[i]]);
    assert Reordered(ONE_TWO, TWO_ONE);
  }

  /** Two requests that list the same items in different order share a key, but a context can
      tell them apart. */
  lemma ItemOrderSharesKey(strategy: MergeStrategy, same: Expansion)
    requires forall query :: same(map[], query) == query
    ensures var config := OneContext(map[], map["d" := ONE_TWO], "k");
            var one := Request(map["d" := ONE_TWO], None, strategy);
            var other := Request(map["d" := TWO_ONE], None, strategy);
            && Answer(config, one, same)["k"] == Bool(true) && Answer(config, other, same)["k"] == Bool(false)
            && HitPossible(config, one, Answer(config, other, same), ServiceOf(same))
  {
    var one, other := Request(map["d" := ONE_TWO], None, strategy), Request(map["d" := TWO_ONE], None, strategy);
    ItemOrderKey(one, other);
    SharedKeyHit(OneContext(map[], map["d" := ONE_TWO], "k"), one, other, same);
    OnlyFirstApplies();
    ItemOrderAnswer(ONE_TWO, strategy, same);
    ItemOrderAnswer(TWO_ONE, strategy, same);
  }

  lemma ItemOrderAnswer(given: Json, strategy: MergeStrategy, same: Expansion)
    requires forall query :: same(map[], query) == query
    ensures Answer(OneContext(map[], map["d" := ONE_TWO], "k"), Request(map["d" := given], None, strategy), same)["k"]
         == Bool(Applies(map["d" := ONE_TWO], map["d" := given]))
  {
    OneContextAnswer(map[], map["d" := ONE_TWO], "k", map["d" := given], strategy, same);
  }

  lemma ItemOrderKey(one: Request, other: Request)
    requires one.query == map["d" := ONE_TWO] && other == one.(query := map["d" := TWO_ONE])
    ensures KeyOf(one) == KeyOf(other)
  {
    ItemOrderReordered();
    EquivalentRequestsShareKey(one, other);
  }

  lemma OnlyFirstApplies()
    ensures Applies(map["d" := ONE_TWO], map["d" := ONE_TWO])
    ensures !Applies(map["d" := ONE_TWO], map["d" := TWO_ONE])
  {
    assert ONE_TWO.items[0] != TWO_ONE.items[0];
    assert "d" in map["d" := ONE_TWO];
  }
}
