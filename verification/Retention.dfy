/** Which of the given values survive the evaluation of local cohorts. */
module Retention {
  import opened Wrappers
  import opened JsonValues
  import opened Matching
  import opened Configuration
  import opened Dependencies
  import opened Lineages
  import opened LocalCohorts
  import opened Removal
  import opened Workspaces

  // ---------- Gaps ----------

  /** Of what `d` depends on, and of `d` itself, something is missing from the request although
      something above it is given. */
  ghost predicate Gap(dimensions: Dimensions, query: map<string, Json>, d: string)
    requires WellFormed(dimensions)
  {
    exists given, missing :: GapAt(dimensions, query, given, missing, d)
  }

  ghost predicate GapAt(dimensions: Dimensions, query: map<string, Json>, given: string, missing: string, d: string)
    requires WellFormed(dimensions)
  {
    && given in dimensions && given in query
    && missing !in query && missing in Dependents(dimensions, given)
    && (d == missing || d in Dependents(dimensions, missing))
  }

  lemma GapPassesDown(dimensions: Dimensions, query: map<string, Json>, base: string, d: string)
    requires WellFormed(dimensions) && IsBase(dimensions, base, d) && d in dimensions && Gap(dimensions, query, base)
    ensures Gap(dimensions, query, d)
  {
    var given, missing :| GapAt(dimensions, query, given, missing, base);
    ChildIsBelow(Own(dimensions), dimensions.Keys, missing, base, d);
    assert GapAt(dimensions, query, given, missing, d);
  }

  /** A gap of a cohort is one of its base, or opens at the cohort itself. */
  lemma GapComesFrom(dimensions: Dimensions, query: map<string, Json>, base: string, d: string)
    requires WellFormed(dimensions) && IsBase(dimensions, base, d) && Gap(dimensions, query, d)
    ensures Gap(dimensions, query, base) || (base in query && d !in query)
  {
    var given, missing :| GapAt(dimensions, query, given, missing, d);
    if d != missing {
      BaseBetween(dimensions, missing, base, d);
      assert GapAt(dimensions, query, given, missing, base);
    } else {
      BaseBetween(dimensions, given, base, d);
      if base !in query {
        assert GapAt(dimensions, query, given, base, base);
      }
    }
  }

  lemma GapOpens(dimensions: Dimensions, query: map<string, Json>, base: string, d: string)
    requires WellFormed(dimensions) && IsBase(dimensions, base, d) && d in dimensions
    requires base in query && d !in query
    ensures Gap(dimensions, query, d)
  {
    ChildIsBelow(Own(dimensions), dimensions.Keys, base, base, d);
    assert GapAt(dimensions, query, base, d, d);
  }

  lemma GapMeansCohort(dimensions: Dimensions, query: map<string, Json>, d: string)
    requires WellFormed(dimensions) && Gap(dimensions, query, d)
    ensures d in dimensions && !IsRegular(dimensions, d)
  {
    var given, missing :| GapAt(dimensions, query, given, missing, d);
    DependentIsCohort(dimensions, given, missing);
    if d != missing {
      DependentIsCohort(dimensions, missing, d);
    }
  }

  /** The evaluation does not get to a dimension exactly when there is a gap above it; where it
      does, the dimension has a value exactly when it is given one. */
  lemma {:induction false} DeadIffGap(dimensions: Dimensions, query: map<string, Json>, holds: Rule, d: string)
    requires Tidy(dimensions) && LocalsAreLeaves(dimensions) && d in dimensions && !IsLocal(dimensions, d)
    ensures StatusOf(dimensions, query, holds, d).Dead? <==> Gap(dimensions, query, d)
    ensures StatusOf(dimensions, query, holds, d).Active? <==> d in query && !Gap(dimensions, query, d)
    decreases LayersOf(Own(dimensions)).depth(d)
  {
    if IsRegular(dimensions, d) {
      if Gap(dimensions, query, d) {
        GapMeansCohort(dimensions, query, d);
      }
    } else {
      var base := BaseOf(dimensions[d]).value;
      assert IsBase(dimensions, base, d);
      StatusOfCohort(dimensions, query, holds, base, d);
      DeadIffGap(dimensions, query, holds, base);
      if Gap(dimensions, query, base) {
        GapPassesDown(dimensions, query, base, d);
      } else if base in query && d !in query {
        GapOpens(dimensions, query, base, d);
      } else if Gap(dimensions, query, d) {
        GapComesFrom(dimensions, query, base, d);
      }
    }
  }

  /** The value given for a dimension that is not a local cohort is kept exactly when there is no
      gap above it, as is always so for a regular one; otherwise the dimension is left out,
      whatever was given. */
  lemma GivenIsKeptIff(dimensions: Dimensions, query: map<string, Json>, holds: Rule, d: string)
    requires Tidy(dimensions) && LocalsAreLeaves(dimensions)
    requires d in dimensions && !IsLocal(dimensions, d) && d in query
    ensures d in Completed(dimensions, query, holds) <==> !Gap(dimensions, query, d)
    ensures d in Completed(dimensions, query, holds) ==> Completed(dimensions, query, holds)[d] == query[d]
    ensures IsRegular(dimensions, d) ==> !Gap(dimensions, query, d)
  {
    DeadIffGap(dimensions, query, holds, d);
    if !IsRegular(dimensions, d) {
      var base := BaseOf(dimensions[d]).value;
      assert IsBase(dimensions, base, d);
      StatusOfCohort(dimensions, query, holds, base, d);
    } else if Gap(dimensions, query, d) {
      GapMeansCohort(dimensions, query, d);
    }
  }

  // ---------- A workspace in which a given value is lost ----------

  const CITY := NewDimension("city", 1, Regular, map[], None)
  const ZONE := NewDimension("zone", 1, RemoteCohort("city"), map[], Some("zoneOf"))
  const OFFER := NewDimension("offer", 1, RemoteCohort("zone"), map[], Some("offerOf"))

  lemma CityAllowed(dimensions: Dimensions)
    requires dimensions.Keys == {VARIANT_IDS} && |dimensions| == 1
    ensures CanCreate(dimensions, CITY)
  {
  }

  lemma ZoneAllowed(dimensions: Dimensions)
    requires dimensions.Keys == {VARIANT_IDS} + {"city"} && |dimensions| == 2 && dimensions["city"] == InfoOf(CITY)
    ensures CanCreate(dimensions, ZONE)
  {
  }

  lemma OfferAllowed(dimensions: Dimensions)
    requires dimensions.Keys == {VARIANT_IDS} + {"city"} + {"zone"} && |dimensions| == 3
        && dimensions["zone"] == InfoOf(ZONE)
    ensures CanCreate(dimensions, OFFER)
  {
  }

  lemma CityServed(dimensions: Dimensions)
    requires Sound(dimensions) && dimensions.Keys == {VARIANT_IDS} && |dimensions| == 1
    ensures var served := Served(dimensions, Create(CITY, true));
            served.Keys == {VARIANT_IDS} + {"city"} && |served| == 2 && served["city"] == InfoOf(CITY)
  {
    CityAllowed(dimensions);
    OneMore(dimensions, CITY);
  }

  lemma ZoneServed(dimensions: Dimensions)
    requires Sound(dimensions)
    requires dimensions.Keys == {VARIANT_IDS} + {"city"} && |dimensions| == 2 && dimensions["city"] == InfoOf(CITY)
    ensures var served := Served(dimensions, Create(ZONE, true));
            && served.Keys == {VARIANT_IDS} + {"city"} + {"zone"} && |served| == 3 && served["zone"] == InfoOf(ZONE)
            && IsBase(served, "city", "zone")
  {
    ZoneAllowed(dimensions);
    OneMore(dimensions, ZONE);
  }

  lemma OfferServed(dimensions: Dimensions)
    requires Sound(dimensions)
    requires dimensions.Keys == {VARIANT_IDS} + {"city"} + {"zone"} && |dimensions| == 3
        && dimensions["zone"] == InfoOf(ZONE)
    requires IsBase(dimensions, "city", "zone")
    ensures var served := Served(dimensions, Create(OFFER, true));
            && "offer" in served && served["offer"] == InfoOf(OFFER)
            && IsBase(served, "city", "zone") && IsBase(served, "zone", "offer")
  {
    OfferAllowed(dimensions);
    OneMore(dimensions, OFFER);
  }

  /** A new workspace that has been asked for a city, the zone of a city, and the offer for a
      zone. */
  lemma OffersServed(start: Dimensions) returns (requests: seq<Request>)
    requires Sound(start) && start.Keys == {VARIANT_IDS} && |start| == 1
    ensures var served := AllServed(start, requests);
            && "offer" in served && served["offer"] == InfoOf(OFFER)
            && IsBase(served, "city", "zone") && IsBase(served, "zone", "offer")
  {
    requests := [] + [Create(CITY, true)];
    AllServedSnoc(start, [], Create(CITY, true));
    CityServed(start);
    AllServedSnoc(start, requests, Create(ZONE, true));
    ZoneServed(AllServed(start, requests));
    requests := requests + [Create(ZONE, true)];
    AllServedSnoc(start, requests, Create(OFFER, true));
    OfferServed(AllServed(start, requests));
    requests := requests + [Create(OFFER, true)];
  }

  /** With the base of its base given and its base missing, a given remote cohort is left out. */
  lemma LeftOut(dimensions: Dimensions, query: map<string, Json>, holds: Rule, root: string, base: string, d: string)
    requires Tidy(dimensions) && LocalsAreLeaves(dimensions)
    requires IsBase(dimensions, root, base) && IsBase(dimensions, base, d) && !IsLocal(dimensions, d)
    requires root in query && base !in query && d in query
    ensures d !in Completed(dimensions, query, holds)
  {
    assert CohortsKnown(dimensions) && base in dimensions && d in dimensions;
    GapOpens(dimensions, query, root, base);
    GapPassesDown(dimensions, query, base, d);
    GivenIsKeptIff(dimensions, query, holds, d);
  }

  lemma CityAndOffer(city: Json, offer: Json)
    ensures var query := map["city" := city, "offer" := offer];
            "city" in query && "offer" in query && "zone" !in query
  {
  }

  /** So given values of remote cohorts are not always retained: some workspace has a city, the
      zone of a city, and the offer for a zone, and with the city given and the zone missing,
      the offer is left out. */
  lemma RemoteCanBeLeftOut(holds: Rule, city: Json, offer: Json) returns (requests: seq<Request>)
    ensures Sound(Fresh(map[]))
    ensures var dimensions := AllServed(Fresh(map[]), requests);
            && "offer" in dimensions && dimensions["offer"].dimensionType.RemoteCohort?
            && "offer" !in Completed(dimensions, map["city" := city, "offer" := offer], holds)
  {
    FreshIsSound(map[]);
    assert |Fresh(map[]).Keys| == 1;
    requests := OffersServed(Fresh(map[]));
    CityAndOffer(city, offer);
    LeftOut(AllServed(Fresh(map[]), requests), map["city" := city, "offer" := offer], holds, "city", "zone", "offer");
  }
}
