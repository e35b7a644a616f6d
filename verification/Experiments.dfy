/** Which experiment variants a request is given. */
module Experiments {
  import opened Arithmetic
  import opened Wrappers
  import opened JsonValues
  import opened Matching

  type Byte = n: int | 0 <= n < 256
  type BucketIndex = n: int | 0 <= n < 100

  datatype GroupType = UserCreated | SystemGenerated

  datatype Bucket = Bucket(variantId: string, experimentId: string)

  /** A hundred buckets, some of them taken. */
  type Buckets = b: seq<Option<Bucket>> | |b| == 100 witness seq(100, _ => None)

  datatype Variant = Variant(id: string, entries: map<string, Json>)

  datatype Experiment = Experiment(
    id: string,
    trafficPercentage: Byte,
    variants: seq<Variant>,
    condition: map<string, Json>)

  datatype ExperimentGroup = ExperimentGroup(
    id: string,
    condition: map<string, Json>,
    trafficPercentage: Byte,
    groupType: GroupType,
    buckets: Buckets)

  /** The hash of an identifier in a group. */
  type Hashing = (string, string) -> BucketIndex

  // ---------- Buckets of groups ----------

  /** The toss and the bucket that one group gives to an identifier, if it admits it. */
  function BucketOf(group: ExperimentGroup, context: map<string, Json>, identifier: string, hash: Hashing)
    : Option<(nat, Bucket)>
  {
    var index := hash(identifier, group.id);
    if Applies(group.condition, context) && group.trafficPercentage >= index && group.buckets[index].Some? then
      var bucket := group.buckets[index].value;
      if group.groupType == SystemGenerated then Some((index, bucket))
      else if group.trafficPercentage > 0 then Some((index * 100 / group.trafficPercentage, bucket))
      else None
    else None
  }

  function ApplicableBuckets(groups: seq<ExperimentGroup>, context: map<string, Json>, identifier: string,
                             hash: Hashing)
    : seq<(nat, Bucket)>
  {
    if identifier == "" || groups == [] then []
    else
      var first := BucketOf(groups[0], context, identifier, hash);
      (if first.Some? then [first.value] else []) + ApplicableBuckets(groups[1..], context, identifier, hash)
  }

  // ---------- Variants of buckets ----------

  /** The variant of a bucket, if its experiment is known, applies, and has traffic for the toss. */
  function VariantOf(experiments: map<string, Experiment>, context: map<string, Json>, toss: nat, bucket: Bucket)
    : Option<string>
  {
    if bucket.experimentId in experiments then
      var experiment := experiments[bucket.experimentId];
      if Applies(experiment.condition, context) && experiment.trafficPercentage * |experiment.variants| >= toss
      then Some(bucket.variantId) else None
    else None
  }

  function VariantsOf(experiments: map<string, Experiment>, context: map<string, Json>, buckets: seq<(nat, Bucket)>)
    : seq<string>
  {
    if buckets == [] then []
    else
      var first := VariantOf(experiments, context, buckets[0].0, buckets[0].1);
      (if first.Some? then [first.value] else []) + VariantsOf(experiments, context, buckets[1..])
  }

  function SatisfiedExperiments(experiments: seq<Experiment>, context: map<string, Json>): seq<Experiment> {
    if experiments == [] then []
    else
      (if PartiallyApplies(experiments[0].condition, context) then [experiments[0]] else []) +
      SatisfiedExperiments(experiments[1..], context)
  }

  /** Experiments by id; of several with one id the last counts. */
  function ById(experiments: seq<Experiment>): map<string, Experiment> {
    if experiments == [] then map[]
    else map[experiments[0].id := experiments[0]] + ById(experiments[1..])
  }

  /** The variants for a request that is already completed with its cohorts. */
  function ApplicableVariants(experiments: seq<Experiment>, groups: seq<ExperimentGroup>, context: map<string, Json>,
                              identifier: string, hash: Hashing)
    : seq<string>
  {
    VariantsOf(ById(SatisfiedExperiments(experiments, context)), context,
               ApplicableBuckets(groups, context, identifier, hash))
  }

  // ---------- Tosses ----------

  /** The toss of an admitted identifier never exceeds 100, and its bucket is its own. */
  lemma TossAtMostHundred(group: ExperimentGroup, context: map<string, Json>, identifier: string, hash: Hashing)
    requires BucketOf(group, context, identifier, hash).Some?
    ensures var (toss, bucket) := BucketOf(group, context, identifier, hash).value;
            toss <= 100 && group.buckets[hash(identifier, group.id)] == Some(bucket)
  {
    var index: nat, traffic: nat := hash(identifier, group.id), group.trafficPercentage;
    if group.groupType != SystemGenerated {
      QuotientAtMost(index * 100, traffic, 100);
    }
  }

  lemma QuotientAtMost(a: nat, d: nat, bound: nat)
    requires d > 0 && a <= bound * d
    ensures a / d <= bound
  {
    MultiplyMonotone(bound + 1, a / d, d);
  }

  lemma DivideByMore(a: nat, d: nat, e: nat)
    requires 0 < d <= e
    ensures a / e <= a / d
  {
    var low, high := a / e, a / d;
    MultiplyMonotone(d, e, low);
    MultiplyMonotone(high + 1, low, d);
    assert low * d <= a < (high + 1) * d;
  }

  // ---------- Ramping up ----------

  ghost predicate GroupRampedUp(before: ExperimentGroup, after: ExperimentGroup) {
    after == before.(trafficPercentage := after.trafficPercentage) &&
    before.trafficPercentage <= after.trafficPercentage
  }

  ghost predicate ExperimentRampedUp(before: Experiment, after: Experiment) {
    after == before.(trafficPercentage := after.trafficPercentage) &&
    before.trafficPercentage <= after.trafficPercentage
  }

  ghost predicate GroupsRampedUp(before: seq<ExperimentGroup>, after: seq<ExperimentGroup>) {
    |before| == |after| && forall i :: 0 <= i < |before| ==> GroupRampedUp(before[i], after[i])
  }

  ghost predicate ExperimentsRampedUp(before: seq<Experiment>, after: seq<Experiment>) {
    |before| == |after| && forall i :: 0 <= i < |before| ==> ExperimentRampedUp(before[i], after[i])
  }

  /** A group with more traffic keeps everyone it admitted in the same bucket, at no higher toss. */
  lemma BucketSticks(before: ExperimentGroup, after: ExperimentGroup, context: map<string, Json>,
                     identifier: string, hash: Hashing)
    requires GroupRampedUp(before, after) && BucketOf(before, context, identifier, hash).Some?
    ensures BucketOf(after, context, identifier, hash).Some?
    ensures var (toss, bucket) := BucketOf(before, context, identifier, hash).value;
            var (toss', bucket') := BucketOf(after, context, identifier, hash).value;
            bucket' == bucket && toss' <= toss
  {
    if before.groupType != SystemGenerated {
      DivideByMore(hash(identifier, before.id) * 100, before.trafficPercentage, after.trafficPercentage);
    }
  }

  ghost predicate AllRampedUp(before: map<string, Experiment>, after: map<string, Experiment>) {
    before.Keys == after.Keys && forall id :: id in before ==> ExperimentRampedUp(before[id], after[id])
  }

  /** A bucket that has a variant keeps it with more traffic and a lower toss. */
  lemma VariantSticks(before: map<string, Experiment>, after: map<string, Experiment>, context: map<string, Json>,
                      toss: nat, lower: nat, bucket: Bucket)
    requires AllRampedUp(before, after) && lower <= toss
    requires VariantOf(before, context, toss, bucket).Some?
    ensures VariantOf(after, context, lower, bucket) == VariantOf(before, context, toss, bucket)
  {
    var earlier, later := before[bucket.experimentId], after[bucket.experimentId];
    assert ExperimentRampedUp(earlier, later);
    assert earlier.trafficPercentage * |earlier.variants| <= later.trafficPercentage * |later.variants|;
  }

  lemma {:induction false} SatisfiedRampedUp(before: seq<Experiment>, after: seq<Experiment>,
                                             context: map<string, Json>)
    requires ExperimentsRampedUp(before, after)
    ensures AllRampedUp(ById(SatisfiedExperiments(before, context)), ById(SatisfiedExperiments(after, context)))
  {
    if before != [] {
      assert ExperimentRampedUp(before[0], after[0]);
      SatisfiedRampedUp(before[1..], after[1..], context);
      var rest, rest' := SatisfiedExperiments(before[1..], context), SatisfiedExperiments(after[1..], context);
      if PartiallyApplies(before[0].condition, context) {
        assert ([before[0]] + rest)[1..] == rest && ([after[0]] + rest')[1..] == rest';
      } else {
        assert [] + rest == rest && [] + rest' == rest';
      }
    }
  }

  /** `some` with further elements put in between, none taken out or moved. */
  ghost predicate Sublist(some: seq<string>, all: seq<string>) {
    some == [] ||
    (all != [] && ((some[0] == all[0] && Sublist(some[1..], all[1..])) || Sublist(some, all[1..])))
  }

  lemma SublistStep(first: Option<string>, some: seq<string>, first': Option<string>, all: seq<string>)
    requires Sublist(some, all) && (first.Some? ==> first' == first)
    ensures Sublist((if first.Some? then [first.value] else [])
        + some, (if first'.Some? then [first'.value] else []) + all)
  {
    var longer := (if first'.Some? then [first'.value] else []) + all;
    if first'.Some? {
      assert longer[1..] == all;
      assert ([first'.value] + some)[1..] == some;
    } else {
      assert longer == all;
    }
    assert [] + some == some;
  }

  /** What one group contributes to the list of variants. */
  ghost function Contribution(experiments: map<string, Experiment>, group: ExperimentGroup, context: map<string, Json>,
                              identifier: string, hash: Hashing): Option<string> {
    var bucket := BucketOf(group, context, identifier, hash);
    if bucket.Some? then VariantOf(experiments, context, bucket.value.0, bucket.value.1) else None
  }

  lemma ContributionFirst(experiments: map<string, Experiment>, groups: seq<ExperimentGroup>,
                          context: map<string, Json>, identifier: string, hash: Hashing)
    requires identifier != "" && groups != []
    ensures VariantsOf(experiments, context, ApplicableBuckets(groups, context, identifier, hash)) ==
      (var first := Contribution(experiments, groups[0], context, identifier, hash);
       if first.Some? then [first.value] else [])
      + VariantsOf(experiments, context, ApplicableBuckets(groups[1..], context, identifier, hash))
  {
    var rest := ApplicableBuckets(groups[1..], context, identifier, hash);
    var bucket := BucketOf(groups[0], context, identifier, hash);
    if bucket.Some? {
      assert ([bucket.value] + rest)[1..] == rest;
    } else {
      assert [] + rest == rest;
    }
  }

  lemma {:induction false} MoreTrafficKeepsVariants(
      experiments: map<string, Experiment>, experiments': map<string, Experiment>,
      groups: seq<ExperimentGroup>, groups': seq<ExperimentGroup>,
      context: map<string, Json>, identifier: string, hash: Hashing)
    requires AllRampedUp(experiments, experiments') && GroupsRampedUp(groups, groups')
    ensures Sublist(VariantsOf(experiments, context, ApplicableBuckets(groups, context, identifier, hash)),
                    VariantsOf(experiments', context, ApplicableBuckets(groups', context, identifier, hash)))
    decreases |groups|
  {
    if identifier != "" && groups != [] {
      ContributionFirst(experiments, groups, context, identifier, hash);
      ContributionFirst(experiments', groups', context, identifier, hash);
      MoreTrafficKeepsVariants(experiments, experiments', groups[1..], groups'[1..], context, identifier, hash);
      var first := Contribution(experiments, groups[0], context, identifier, hash);
      var first' := Contribution(experiments', groups'[0], context, identifier, hash);
      assert GroupRampedUp(groups[0], groups'[0]);
      if first.Some? {
        BucketSticks(groups[0], groups'[0], context, identifier, hash);
        var (toss, bucket) := BucketOf(groups[0], context, identifier, hash).value;
        var (toss', _) := BucketOf(groups'[0], context, identifier, hash).value;
        VariantSticks(experiments, experiments', context, toss, toss', bucket);
      }
      SublistStep(first,
                  VariantsOf(experiments, context, ApplicableBuckets(groups[1..], context, identifier, hash)),
                  first',
                  VariantsOf(experiments', context, ApplicableBuckets(groups'[1..], context, identifier, hash)));
    }
  }

  /** Raising the traffic of any groups and experiments takes no variant away from anybody,
      and changes none: every list of variants only gets new ones put in between. */
  lemma RampUpIsSticky(experiments: seq<Experiment>, experiments': seq<Experiment>,
                       groups: seq<ExperimentGroup>, groups': seq<ExperimentGroup>,
                       context: map<string, Json>, identifier: string, hash: Hashing)
    requires ExperimentsRampedUp(experiments, experiments') && GroupsRampedUp(groups, groups')
    ensures Sublist(ApplicableVariants(experiments, groups, context, identifier, hash),
                    ApplicableVariants(experiments', groups', context, identifier, hash))
  {
    SatisfiedRampedUp(experiments, experiments', context);
    MoreTrafficKeepsVariants(ById(SatisfiedExperiments(experiments, context)),
                             ById(SatisfiedExperiments(experiments', context)),
                             groups, groups', context, identifier, hash);
  }

  // ---------- The prefilter ----------

  ghost predicate UniqueIds(experiments: seq<Experiment>) {
    forall i, j :: 0 <= i < j < |experiments| ==> experiments[i].id != experiments[j].id
  }

  lemma {:induction false} ByIdHas(experiments: seq<Experiment>, id: string)
    ensures id in ById(experiments) <==> exists i :: 0 <= i < |experiments| && experiments[i].id == id
    ensures id in ById(experiments) ==> ById(experiments)[id] in experiments
  {
    if experiments != [] {
      ByIdHas(experiments[1..], id);
      if id in ById(experiments[1..]) {
        var i :| 0 <= i < |experiments[1..]| && experiments[1..][i].id == id;
        assert experiments[i + 1].id == id;
      }
    }
  }

  /** The prefilter only drops experiments that would not apply. */
  lemma {:induction false} PrefilterLookup(experiments: seq<Experiment>, context: map<string, Json>, id: string)
    requires UniqueIds(experiments)
    ensures var all, kept := ById(experiments), ById(SatisfiedExperiments(experiments, context));
            && (id in kept ==> id in all && kept[id] == all[id])
            && (id in all && id !in kept ==> !Applies(all[id].condition, context))
  {
    if experiments != [] {
      var first, rest := experiments[0], experiments[1..];
      assert forall i :: 0 <= i < |rest| ==> rest[i] == experiments[i + 1];
      PrefilterLookup(rest, context, id);
      ByIdHas(rest, first.id);
      var keptRest := SatisfiedExperiments(rest, context);
      if PartiallyApplies(first.condition, context) {
        assert ([first] + keptRest)[1..] == keptRest;
        PrefilterLookup(rest, context, first.id);
      } else {
        assert [] + keptRest == keptRest;
      }
    }
  }

  lemma {:induction false} SameVariants(all: map<string, Experiment>, kept: map<string, Experiment>,
                                        context: map<string, Json>, buckets: seq<(nat, Bucket)>)
    requires forall id :: id in kept ==> id in all && kept[id] == all[id]
    requires forall id :: id in all && id !in kept ==> !Applies(all[id].condition, context)
    ensures VariantsOf(kept, context, buckets) == VariantsOf(all, context, buckets)
  {
    if buckets != [] {
      SameVariants(all, kept, context, buckets[1..]);
    }
  }

  /** Where ids are unique, dropping the experiments that do not match partially changes
      neither the variants nor their order. */
  lemma PrefilterIsRedundant(experiments: seq<Experiment>, groups: seq<ExperimentGroup>, context: map<string, Json>,
                             identifier: string, hash: Hashing)
    requires UniqueIds(experiments)
    ensures ApplicableVariants(experiments, groups, context, identifier, hash)
         == VariantsOf(ById(experiments), context, ApplicableBuckets(groups, context, identifier, hash))
  {
    forall id {
      PrefilterLookup(experiments, context, id);
    }
    SameVariants(ById(experiments), ById(SatisfiedExperiments(experiments, context)), context,
                 ApplicableBuckets(groups, context, identifier, hash));
  }
}
