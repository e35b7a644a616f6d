/** Who is given which variant, group by group. */
module Admissions {
  import opened Arithmetic
  import opened Wrappers
  import opened JsonValues
  import opened Matching
  import opened Sequences
  import opened Experiments

  // ---------- The condition for one group ----------

  /** The group's condition holds, the identifier's index is at most the group's traffic, and
      the bucket at that index is taken. */
  ghost predicate Admits(group: ExperimentGroup, context: map<string, Json>, identifier: string, hash: Hashing) {
    var index := hash(identifier, group.id);
    Applies(group.condition, context) && index <= group.trafficPercentage && group.buckets[index].Some?
  }

  /** The identifier's toss in the group is at most the limit: the toss is the index itself in a
      group generated by the system, and elsewhere the index as a percentage of the traffic,
      rounded down, without which there is none. */
  ghost predicate TossWithin(group: ExperimentGroup, identifier: string, hash: Hashing, limit: nat) {
    var index: nat := hash(identifier, group.id);
    match group.groupType
    case SystemGenerated => index <= limit
    case UserCreated => group.trafficPercentage > 0 && index * 100 < (limit + 1) * group.trafficPercentage
  }

  /** Of the experiments with this id that the context does not contradict, the i-th is the
      last. */
  ghost predicate Counts(experiments: seq<Experiment>, context: map<string, Json>, id: string, i: int) {
    && 0 <= i < |experiments| && experiments[i].id == id && PartiallyApplies(experiments[i].condition, context)
    && forall j :: i < j < |experiments| && experiments[j].id == id ==>
         !PartiallyApplies(experiments[j].condition, context)
  }

  /** The experiment applies, and its traffic times the number of its variants covers the toss. */
  ghost predicate Takes(experiment: Experiment, group: ExperimentGroup, context: map<string, Json>,
                        identifier: string, hash: Hashing) {
    && Applies(experiment.condition, context)
    && TossWithin(group, identifier, hash, experiment.trafficPercentage * |experiment.variants|)
  }

  /** The group gives the variant to the identifier. */
  ghost predicate Gives(experiments: seq<Experiment>, group: ExperimentGroup, context: map<string, Json>,
                        identifier: string, hash: Hashing, variant: string)
  {
    && Admits(group, context, identifier, hash)
    && var bucket := group.buckets[hash(identifier, group.id)].value;
       variant == bucket.variantId
       && exists i :: Counts(experiments, context, bucket.experimentId, i)
                   && Takes(experiments[i], group, context, identifier, hash)
  }

  // ---------- Experiments by their ids ----------

  lemma CountsNext(experiments: seq<Experiment>, context: map<string, Json>, id: string, i: int)
    requires experiments != [] && i > 0
    ensures Counts(experiments, context, id, i) <==> Counts(experiments[1..], context, id, i - 1)
  {
    var rest := experiments[1..];
    assert forall j :: 0 <= j < |rest| ==> rest[j] == experiments[j + 1];
    if Counts(rest, context, id, i - 1) {
      forall j | i < j < |experiments| && experiments[j].id == id
        ensures !PartiallyApplies(experiments[j].condition, context)
      {
        assert rest[j - 1] == experiments[j];
      }
    }
  }

  lemma CountsOnce(experiments: seq<Experiment>, context: map<string, Json>, id: string, i: int, j: int)
    requires Counts(experiments, context, id, i) && Counts(experiments, context, id, j)
    ensures i == j
  {
  }

  lemma {:induction false} SomeCounts(experiments: seq<Experiment>, context: map<string, Json>, id: string, i: nat)
    returns (last: int)
    requires i < |experiments| && experiments[i].id == id && PartiallyApplies(experiments[i].condition, context)
    ensures Counts(experiments, context, id, last)
    decreases |experiments| - i
  {
    if j :| i < j < |experiments| && experiments[j].id == id && PartiallyApplies(experiments[j].condition, context) {
      last := SomeCounts(experiments, context, id, j);
    } else {
      last := i;
    }
  }

  /** The experiment found for an id is the one that counts. */
  lemma {:induction false} LookupCounts(experiments: seq<Experiment>, context: map<string, Json>, id: string)
    returns (i: int)
    ensures var found := ById(SatisfiedExperiments(experiments, context));
            if id in found then Counts(experiments, context, id, i) && found[id] == experiments[i]
            else forall j :: !Counts(experiments, context, id, j)
  {
    if experiments == [] {
      i := 0;
    } else {
      var first, rest := experiments[0], experiments[1..];
      var at := LookupCounts(rest, context, id);
      var kept := SatisfiedExperiments(rest, context);
      assert ([first] + kept)[1..] == kept && [] + kept == kept;
      forall j | j > 0 {
        CountsNext(experiments, context, id, j);
      }
      if id in ById(kept) {
        i := at + 1;
        assert Counts(experiments, context, id, i);
      } else {
        i := 0;
        if first.id == id && PartiallyApplies(first.condition, context) {
          forall j | 0 < j < |experiments| && experiments[j].id == id
            ensures !PartiallyApplies(experiments[j].condition, context)
          {
            assert experiments[j] == rest[j - 1];
            if PartiallyApplies(rest[j - 1].condition, context) {
              var last := SomeCounts(rest, context, id, j - 1);
            }
          }
        }
      }
    }
  }

  // ---------- One group ----------

  lemma QuotientWithin(a: nat, d: nat, limit: nat)
    requires d > 0
    ensures a / d <= limit <==> a < (limit + 1) * d
  {
    var q := a / d;
    assert q * d <= a < (q + 1) * d;
    MultiplyMonotone(q + 1, limit + 1, d);
    MultiplyMonotone(limit + 1, q, d);
  }

  /** An admitted identifier has a bucket with a toss within the limit, or no bucket at all. */
  lemma BucketToss(group: ExperimentGroup, context: map<string, Json>, identifier: string, hash: Hashing, limit: nat)
    ensures var bucket := BucketOf(group, context, identifier, hash);
            && (bucket.Some? ==>
                  && Admits(group, context, identifier, hash)
                  && bucket.value.1 == group.buckets[hash(identifier, group.id)].value)
            && (bucket.Some? && bucket.value.0 <= limit <==>
                  Admits(group, context, identifier, hash) && TossWithin(group, identifier, hash, limit))
  {
    if group.groupType == UserCreated && group.trafficPercentage > 0 {
      var index: nat := hash(identifier, group.id);
      QuotientWithin(index * 100, group.trafficPercentage, limit);
    }
  }

  /** What the group contributes is what it gives. */
  lemma ContributionIsGiven(experiments: seq<Experiment>, group: ExperimentGroup, context: map<string, Json>,
                            identifier: string, hash: Hashing)
    ensures var found := ById(SatisfiedExperiments(experiments, context));
            var contribution := Contribution(found, group, context, identifier, hash);
            && (contribution.Some? <==> exists v :: Gives(experiments, group, context, identifier, hash, v))
            && (contribution.Some? ==> Gives(experiments, group, context, identifier, hash, contribution.value))
  {
    if Admits(group, context, identifier, hash) {
      var bucket := group.buckets[hash(identifier, group.id)].value;
      var i := LookupCounts(experiments, context, bucket.experimentId);
      if bucket.experimentId in ById(SatisfiedExperiments(experiments, context)) {
        AdmittedContribution(experiments, group, context, identifier, hash, i);
      } else {
        BucketToss(group, context, identifier, hash, 0);
      }
    } else {
      BucketToss(group, context, identifier, hash, 0);
    }
  }

  lemma AdmittedContribution(experiments: seq<Experiment>, group: ExperimentGroup, context: map<string, Json>,
                             identifier: string, hash: Hashing, i: int)
    requires Admits(group, context, identifier, hash)
    requires var id := group.buckets[hash(identifier, group.id)].value.experimentId;
             var found := ById(SatisfiedExperiments(experiments, context));
             id in found && Counts(experiments, context, id, i) && found[id] == experiments[i]
    ensures var found := ById(SatisfiedExperiments(experiments, context));
            var contribution := Contribution(found, group, context, identifier, hash);
            && (contribution.Some? <==> exists v :: Gives(experiments, group, context, identifier, hash, v))
            && (contribution.Some? ==> Gives(experiments, group, context, identifier, hash, contribution.value))
  {
    var bucket, experiment := group.buckets[hash(identifier, group.id)].value, experiments[i];
    BucketToss(group, context, identifier, hash, experiment.trafficPercentage * |experiment.variants|);
    forall j | Counts(experiments, context, bucket.experimentId, j) ensures j == i {
      CountsOnce(experiments, context, bucket.experimentId, i, j);
    }
    if Takes(experiment, group, context, identifier, hash) {
      assert Gives(experiments, group, context, identifier, hash, bucket.variantId);
    }
  }

  // ---------- All groups ----------

  /** The variants are those that the groups at these places give, and the other groups give
      none. */
  ghost predicate GivenAt(experiments: seq<Experiment>, groups: seq<ExperimentGroup>, context: map<string, Json>,
                          identifier: string, hash: Hashing, variants: seq<string>, places: seq<nat>)
  {
    && Ascending(places, |groups|) && |variants| == |places|
    && (forall k :: 0 <= k < |places| ==>
          Gives(experiments, groups[places[k]], context, identifier, hash, variants[k]))
    && forall g, v :: 0 <= g < |groups| && Gives(experiments, groups[g], context, identifier, hash, v) ==> g in places
  }

  /** The variants of a list of groups. */
  ghost function VariantsIn(experiments: map<string, Experiment>, groups: seq<ExperimentGroup>,
                            context: map<string, Json>, identifier: string, hash: Hashing): seq<string> {
    VariantsOf(experiments, context, ApplicableBuckets(groups, context, identifier, hash))
  }

  ghost function Optional(variant: Option<string>): seq<string> {
    if variant.Some? then [variant.value] else []
  }

  lemma VariantsOfFirst(experiments: map<string, Experiment>, groups: seq<ExperimentGroup>,
                        context: map<string, Json>, identifier: string, hash: Hashing)
    requires identifier != "" && groups != []
    ensures VariantsIn(experiments, groups, context, identifier, hash)
         == Optional(Contribution(experiments, groups[0], context, identifier, hash))
            + VariantsIn(experiments, groups[1..], context, identifier, hash)
  {
    ContributionFirst(experiments, groups, context, identifier, hash);
  }

  lemma {:induction false} VariantsOfLast(experiments: map<string, Experiment>, groups: seq<ExperimentGroup>,
                                          last: ExperimentGroup, context: map<string, Json>, identifier: string,
                                          hash: Hashing)
    requires identifier != ""
    ensures VariantsIn(experiments, groups + [last], context, identifier, hash)
         == VariantsIn(experiments, groups, context, identifier, hash)
            + Optional(Contribution(experiments, last, context, identifier, hash))
  {
    var end := Optional(Contribution(experiments, last, context, identifier, hash));
    VariantsOfFirst(experiments, groups + [last], context, identifier, hash);
    if groups == [] {
      assert (groups + [last])[1..] == [];
    } else {
      var first := Optional(Contribution(experiments, groups[0], context, identifier, hash));
      var rest := VariantsIn(experiments, groups[1..], context, identifier, hash);
      assert (groups + [last])[1..] == groups[1..] + [last];
      VariantsOfFirst(experiments, groups, context, identifier, hash);
      VariantsOfLast(experiments, groups[1..], last, context, identifier, hash);
      assert first + (rest + end) == (first + rest) + end;
    }
  }

  lemma GivenOneMore(experiments: seq<Experiment>, groups: seq<ExperimentGroup>, context: map<string, Json>,
                     identifier: string, hash: Hashing, variants: seq<string>, places: seq<nat>,
                     last: ExperimentGroup, contribution: Option<string>)
    requires GivenAt(experiments, groups, context, identifier, hash, variants, places)
    requires contribution.Some? <==> exists v :: Gives(experiments, last, context, identifier, hash, v)
    requires contribution.Some? ==> Gives(experiments, last, context, identifier, hash, contribution.value)
    ensures GivenAt(experiments, groups + [last], context, identifier, hash,
                    variants + Optional(contribution),
                    places + if contribution.Some? then [|groups|] else [])
  {
    PlacesOneMore(places, |groups|);
    assert variants + [] == variants && places + [] == places;
  }

  /** An identifier is given, in the order of the groups, exactly the variants that the groups
      give it; an empty one is given none. */
  lemma {:induction false} VariantsAreGiven(experiments: seq<Experiment>, groups: seq<ExperimentGroup>,
                                            context: map<string, Json>, identifier: string, hash: Hashing)
    returns (places: seq<nat>)
    ensures identifier == "" ==> ApplicableVariants(experiments, groups, context, identifier, hash) == []
    ensures identifier != "" ==>
      GivenAt(experiments, groups, context, identifier, hash,
              ApplicableVariants(experiments, groups, context, identifier, hash), places)
  {
    places := [];
    if identifier != "" && groups != [] {
      var found := ById(SatisfiedExperiments(experiments, context));
      var n := |groups| - 1;
      var init := VariantsAreGiven(experiments, groups[..n], context, identifier, hash);
      var last := Contribution(found, groups[n], context, identifier, hash);
      VariantsOfLast(found, groups[..n], groups[n], context, identifier, hash);
      ContributionIsGiven(experiments, groups[n], context, identifier, hash);
      GivenOneMore(experiments, groups[..n], context, identifier, hash,
                   ApplicableVariants(experiments, groups[..n], context, identifier, hash), init, groups[n], last);
      assert groups[..n] + [groups[n]] == groups;
      places := init + if last.Some? then [n] else [];
    }
  }

  // ---------- Full traffic ----------

  /** An experiment that applies, and whose traffic times its variants reaches a hundred, refuses
      nobody whom a group with traffic admits to one of its buckets. */
  lemma FullTrafficRefusesNobody(experiments: seq<Experiment>, group: ExperimentGroup, context: map<string, Json>,
                                 identifier: string, hash: Hashing, i: int)
    requires Admits(group, context, identifier, hash)
    requires group.groupType == UserCreated ==> group.trafficPercentage > 0
    requires Counts(experiments, context, group.buckets[hash(identifier, group.id)].value.experimentId, i)
    requires Applies(experiments[i].condition, context)
    requires experiments[i].trafficPercentage * |experiments[i].variants| >= 100
    ensures Gives(experiments, group, context, identifier, hash,
                  group.buckets[hash(identifier, group.id)].value.variantId)
  {
    var index: nat := hash(identifier, group.id);
    var limit := experiments[i].trafficPercentage * |experiments[i].variants|;
    if group.groupType == UserCreated {
      MultiplyMonotone(101, limit + 1, group.trafficPercentage);
      assert index * 100 < 101 * group.trafficPercentage;
    }
    assert Takes(experiments[i], group, context, identifier, hash);
  }
}
