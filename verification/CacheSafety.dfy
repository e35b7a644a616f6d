/** For which requests a cache hit is always right. */
module CacheSafety {
  import opened Wrappers
  import opened JsonValues
  import opened Matching
  import opened Configuration
  import opened Resolution
  import opened ResolutionLaws
  import opened CacheKey
  import opened CacheProtocol
  import opened Client

  // ---------- The condition ----------

  /** The prefix can be cut at a comma into two that are in order. */
  ghost predicate SplitsUp(p: string) {
    exists i :: SplitsAt(p, i)
  }

  ghost predicate SplitsAt(p: string, i: int) {
    0 <= i < |p| && p[i] == ',' && p[..i] != p[i + 1..] && Leq(p[..i], p[i + 1..])
  }

  /** The separators that a key has around the strategy. */
  function Around(strategy: MergeStrategy): string {
    "?" + StrategyText(strategy) + "?"
  }

  /** Within the prefix, the text of a request could end and a strategy and filter follow. */
  ghost predicate BreaksOut(p: string) {
    exists i, strategy :: BreaksAt(p, i, strategy)
  }

  ghost predicate BreaksAt(p: string, i: int, strategy: MergeStrategy) {
    0 <= i < |p| && ':' in p[..i] && p[i] == '$' && Around(strategy) <= p[i + 1..]
  }

  ghost function Filters(request: Request): set<string>
    requires request.filterKeys.Some?
  {
    set key | key in request.filterKeys.value
  }

  /** The request gives no dimension a value, and filters by one prefix without peculiarities. */
  ghost predicate Safe(request: Request) {
    && request.query == map[] && request.filterKeys.Some?
    && exists p :: Filters(request) == {p} && p != "" && p != "null" && !SplitsUp(p) && !BreaksOut(p)
  }

  ghost predicate HitsRight(config: Config, request: Request, expand: Expansion) {
    forall value :: HitPossible(config, request, value, ServiceOf(expand)) ==> value == Answer(config, request, expand)
  }

  lemma WrongHit(config: Config, request: Request, other: Request, expand: Expansion)
    requires KeyOf(request) == KeyOf(other) && Answer(config, request, expand) != Answer(config, other, expand)
    ensures !HitsRight(config, request, expand)
  {
    SharedKeyHit(config, request, other, expand);
  }

  // ---------- The parts of a key ----------

  ghost function FilterText(request: Request): string {
    if request.filterKeys.Some? then Join(InOrderOf(Filters(request))) else "null"
  }

  lemma KeyParts(request: Request)
    ensures KeyOf(request) == Text(Object(request.query)) + (Around(request.strategy) + FilterText(request))
  {
    var t, s, f := Text(Object(request.query)), StrategyText(request.strategy), FilterText(request);
    assert t + "?" + s + "?" + f == t + ("?" + s + "?" + f);
  }

  lemma NoQueryKey(request: Request)
    requires request.query == map[]
    ensures KeyOf(request) == Around(request.strategy) + FilterText(request)
  {
    KeyParts(request);
    assert Text(Object(map[])) == "";
  }

  lemma FirstIs(keys: set<string>, key: string)
    requires Least(key, keys)
    ensures First(keys) == key
  {
    LeastIsUnique(First(keys), key, keys);
  }

  lemma OneInOrder(p: string)
    ensures InOrderOf({p}) == [p] && Join(InOrderOf({p})) == p
  {
    LeqTotal(p, p);
    FirstIs({p}, p);
    assert {p} - {p} == {};
  }

  lemma TwoInOrder(u: string, v: string)
    requires u != v && Leq(u, v)
    ensures Join(InOrderOf({u, v})) == u + "," + v
  {
    LeqTotal(u, u);
    FirstIs({u, v}, u);
    assert {u, v} - {u} == {v};
    OneInOrder(v);
    assert InOrderOf({u, v}) == [u] + [v];
  }

  lemma NoneInOrder()
    ensures Join(InOrderOf({})) == ""
  {
  }

  lemma LeqPrefix(a: string, b: string)
    requires a <= b
    ensures Leq(a, b)
  {
    if a != "" {
      LeqPrefix(a[1..], b[1..]);
    }
  }

  /** What joins several prefixes splits at the end of the first. */
  lemma SeveralSplit(keys: set<string>)
    requires keys != {} && keys - {First(keys)} != {}
    ensures var first, text := First(keys), Join(InOrderOf(keys));
            |first| < |text| && text[..|first|] == first && SplitsAt(text, |first|)
  {
    var first, others := First(keys), keys - {First(keys)};
    var second, rest := First(others), Join(InOrderOf(others));
    assert InOrderOf(keys) == [first] + InOrderOf(others);
    assert InOrderOf(keys)[1..] == InOrderOf(others);
    assert Join(InOrderOf(keys)) == first + "," + rest;
    JoinStarts(others);
    LeqPrefix(second, rest);
    LeqTransitive(first, second, rest);
    if first == rest {
      LeqTotal(first, second);
    }
    assert (first + "," + rest)[|first| + 1..] == rest;
  }

  lemma JoinStarts(keys: set<string>)
    requires keys != {}
    ensures First(keys) <= Join(InOrderOf(keys))
  {
    var others := keys - {First(keys)};
    assert InOrderOf(keys) == [First(keys)] + InOrderOf(others);
    assert InOrderOf(keys)[1..] == InOrderOf(others);
  }

  // ---------- A safe request shares its key with its twins only ----------

  lemma AroundIsPlain(strategy: MergeStrategy)
    ensures forall k :: 0 <= k < |Around(strategy)| ==> Around(strategy)[k] != '$' && Around(strategy)[k] != ':'
  {
    match strategy
    case REPLACE => assert Around(REPLACE) == "?replace?";
    case MERGE => assert Around(MERGE) == "?merge?";
  }

  lemma AroundDiffers(a: MergeStrategy, b: MergeStrategy, f: string, g: string)
    requires Around(a) + f == Around(b) + g
    ensures a == b && f == g
  {
    assert (Around(a) + f)[1] == Around(a)[1] && (Around(b) + g)[1] == Around(b)[1];
    assert f == (Around(a) + f)[|Around(a)|..];
    assert g == (Around(b) + g)[|Around(b)|..];
  }

  /** The text of a request with dimensions has a colon, and a dollar at its end. */
  lemma {:induction false} MembersTextShape(j: Json, keys: set<string>) returns (colon: nat)
    requires j.Object? && keys <= j.members.Keys && keys != {}
    ensures var text := MembersText(j, keys);
            colon < |text| - 1 && text[colon] == ':' && text[|text| - 1] == '$'
    decreases |keys|
  {
    var key := First(keys);
    var member, rest := Text(j.members[key]), MembersText(j, keys - {key});
    assert MembersText(j, keys) == key + ":" + member + "$" + rest;
    if keys - {key} == {} {
      colon := |key|;
    } else {
      colon := MembersTextShape(j, keys - {key});
      colon := colon + |key + ":" + member + "$"|;
    }
  }

  lemma QueryBreaksOut(request: Request, other: Request, p: string)
    requires request.query == map[] && FilterText(request) == p && other.query != map[]
    requires KeyOf(other) == KeyOf(request)
    ensures BreaksOut(p)
  {
    var around, text := Around(request.strategy), Text(Object(other.query));
    var tail := Around(other.strategy) + FilterText(other);
    NoQueryKey(request);
    KeyParts(other);
    AroundIsPlain(request.strategy);
    var colon := MembersTextShape(Object(other.query), other.query.Keys);
    var m, n := |around|, |text| - 1;
    assert around + p == text + tail;
    assert (around + p)[n] == text[n] && (around + p)[colon] == text[colon];
    assert m <= colon < n;
    var i := n - m;
    assert p[i] == (around + p)[n] && p[colon - m] == (around + p)[colon];
    assert p[..i][colon - m] == ':';
    assert p[i + 1..] == (around + p)[n + 1..] == (text + tail)[n + 1..] == tail;
    assert BreaksAt(p, i, other.strategy);
  }

  /** Requests that share the key of a safe one have the same strategy and the same filter. */
  lemma SafeTwins(request: Request, other: Request)
    requires Safe(request) && KeyOf(other) == KeyOf(request)
    ensures other.query == map[] && other.strategy == request.strategy
    ensures other.filterKeys.Some? && Filters(other) == Filters(request)
  {
    var p :| Filters(request) == {p} && p != "" && p != "null" && !SplitsUp(p) && !BreaksOut(p);
    OneInOrder(p);
    if other.query != map[] {
      QueryBreaksOut(request, other, p);
    }
    NoQueryKey(request);
    NoQueryKey(other);
    AroundDiffers(request.strategy, other.strategy, p, FilterText(other));
    SameFilter(Filters(other), p);
  }

  lemma SameFilter(keys: set<string>, p: string)
    requires Join(InOrderOf(keys)) == p && p != "" && !SplitsUp(p)
    ensures keys == {p}
  {
    if keys == {} {
      NoneInOrder();
    } else if keys - {First(keys)} != {} {
      SeveralSplit(keys);
    } else {
      assert keys == {First(keys)};
      OneInOrder(First(keys));
    }
  }

  lemma SafeIsRight(config: Config, request: Request, expand: Expansion)
    requires Safe(request)
    ensures HitsRight(config, request, expand)
  {
    forall value | HitPossible(config, request, value, ServiceOf(expand))
      ensures value == Answer(config, request, expand)
    {
      HitValues(config, request, value, ServiceOf(expand));
      var service := ServiceOf(expand);
      var other :| service.keyOf(other) == service.keyOf(request) && value == service.answer(config, other);
      SafeTwins(request, other);
    }
  }

  // ---------- Every other request can be served a wrong answer ----------

  /** Completing nothing, as the program does without dimensions. */
  ghost function Same(): Expansion {
    (dimensions, query) => query
  }

  lemma OneItemText(v: Json)
    ensures Text(Array([v])) == Text(v)
  {
    var texts := Texts(Array([v]), 1);
    assert texts == [Text(v)];
    assert texts[..0] == [];
    assert Sorted(texts) == [Text(v)];
  }

  lemma {:induction false} SameTexts(a: Json, b: Json, keys: set<string>)
    requires a.Object? && b.Object? && keys <= a.members.Keys && keys <= b.members.Keys
    requires forall key :: key in keys ==> Text(a.members[key]) == Text(b.members[key])
    ensures MembersText(a, keys) == MembersText(b, keys)
    decreases |keys|
  {
    if keys != {} {
      SameTexts(a, b, keys - {First(keys)});
    }
  }

  /** The request with one value put into an array. */
  ghost function Wrapped(request: Request, d: string): Request
    requires d in request.query
  {
    request.(query := request.query[d := Array([request.query[d]])])
  }

  lemma WrappedSharesKey(request: Request, d: string)
    requires d in request.query
    ensures KeyOf(Wrapped(request, d)) == KeyOf(request)
  {
    OneItemText(request.query[d]);
    SameTexts(Object(request.query), Object(Wrapped(request, d).query), request.query.Keys);
    assert Wrapped(request, d).query.Keys == request.query.Keys;
  }

  lemma WrappedIsTold(request: Request, d: string)
    requires d in request.query
    ensures var condition := map[d := request.query[d]];
            Applies(condition, request.query) != Applies(condition, Wrapped(request, d).query)
  {
    var v, condition := request.query[d], map[d := request.query[d]];
    var items := [v];
    assert items[0] == v && Array(items) != v;
    assert d in condition;
    assert v.Array? ==> v !in v.items;
    assert v in items;
  }

  /** A configuration that tells the request from the wrapped one. */
  lemma QueryIsWrong(request: Request, d: string, key: string) returns (config: Config)
    requires d in request.query
    requires request.filterKeys.Some? ==> key in Filters(request)
    ensures !HitsRight(config, request, Same())
  {
    var other, condition := Wrapped(request, d), map[d := request.query[d]];
    config := OneContext(map[], condition, key);
    WrappedSharesKey(request, d);
    WrappedIsTold(request, d);
    OneContextAnswer(map[], condition, key, request.query, request.strategy, Same());
    OneContextAnswer(map[], condition, key, other.query, other.strategy, Same());
    if request.filterKeys.Some? {
      PrefixFilterPreservesMeaning(config, Filters(request), request.query, request.strategy, Same());
      PrefixFilterPreservesMeaning(config, Filters(request), other.query, request.strategy, Same());
      assert HasPrefix(key, Filters(request));
    }
    assert Answer(config, request, Same())[key] != Answer(config, other, Same())[key];
    WrongHit(config, request, other, Same());
  }

  /** A configuration with one default and no context. */
  ghost function OneKey(key: string): Config {
    Config([], map[], map[key := Bool(true)], map[])
  }

  ghost predicate Lets(request: Request, key: string) {
    request.filterKeys.Some? ==> HasPrefix(key, Filters(request))
  }

  lemma OneKeyAnswer(request: Request, key: string)
    ensures key in Answer(OneKey(key), request, Same()) <==> Lets(request, key)
  {
  }

  /** Two requests of which only one lets a key through. */
  lemma FilterIsWrong(request: Request, other: Request, key: string) returns (config: Config)
    requires KeyOf(request) == KeyOf(other) && (Lets(request, key) <==> !Lets(other, key))
    ensures !HitsRight(config, request, Same())
  {
    config := OneKey(key);
    OneKeyAnswer(request, key);
    OneKeyAnswer(other, key);
    WrongHit(config, request, other, Same());
  }

  lemma SetOfOne(p: string)
    ensures (set key | key in [p]) == {p}
  {
  }

  lemma SetOfNone()
    ensures (set key: string | key in []) == {}
  {
  }

  lemma SameFilterSameKey(request: Request, other: Request)
    requires other.query == request.query && other.strategy == request.strategy
    requires FilterText(other) == FilterText(request)
    ensures KeyOf(other) == KeyOf(request)
  {
    KeyParts(request);
    KeyParts(other);
  }

  /** No prefix and the empty prefix. */
  lemma EmptyFilterIsWrong(request: Request) returns (config: Config)
    requires request.filterKeys.Some? && (Filters(request) == {} || Filters(request) == {""})
    ensures !HitsRight(config, request, Same())
  {
    var other := request.(filterKeys := if Filters(request) == {} then Some([""]) else Some([]));
    SetOfOne("");
    SetOfNone();
    NoneInOrder();
    OneInOrder("");
    SameFilterSameKey(request, other);
    assert HasPrefix("", {""}) && !HasPrefix("", {}) by {
      assert "" in {""};
    }
    config := FilterIsWrong(request, other, "");
  }

  /** No filter and the prefix "null". */
  lemma NullFilterIsWrong(request: Request) returns (config: Config)
    requires request.filterKeys.Some? ==> Filters(request) == {"null"}
    ensures !HitsRight(config, request, Same())
  {
    var other := request.(filterKeys := if request.filterKeys.Some? then None else Some(["null"]));
    SetOfOne("null");
    OneInOrder("null");
    SameFilterSameKey(request, other);
    assert !HasPrefix("", {"null"});
    config := FilterIsWrong(request, other, "");
  }

  /** Several prefixes and their text as one prefix. */
  lemma SeveralAreWrong(request: Request) returns (config: Config)
    requires request.filterKeys.Some? && Filters(request) != {}
    requires Filters(request) - {First(Filters(request))} != {}
    ensures !HitsRight(config, request, Same())
  {
    var first, text := First(Filters(request)), FilterText(request);
    var other := request.(filterKeys := Some([text]));
    SetOfOne(text);
    OneInOrder(text);
    SameFilterSameKey(request, other);
    SeveralSplit(Filters(request));
    assert HasPrefix(first, Filters(request));
    assert !HasPrefix(first, {text});
    config := FilterIsWrong(request, other, first);
  }

  /** A prefix and the two into which it splits. */
  lemma SplitIsWrong(request: Request, p: string, i: int) returns (config: Config)
    requires request.filterKeys.Some? && Filters(request) == {p} && SplitsAt(p, i)
    ensures !HitsRight(config, request, Same())
  {
    var u, v := p[..i], p[i + 1..];
    var other := request.(filterKeys := Some([u, v]));
    assert Filters(other) == {u, v};
    TwoInOrder(u, v);
    OneInOrder(p);
    assert u + "," + v == p;
    SameFilterSameKey(request, other);
    assert HasPrefix(u, {u, v}) by {
      assert u in {u, v};
    }
    assert !HasPrefix(u, {p});
    config := FilterIsWrong(request, other, u);
  }

  /** The request that a prefix breaks out into. */
  lemma BreakingKey(request: Request, p: string, i: int, strategy: MergeStrategy) returns (other: Request, rest: string)
    requires request.query == map[] && request.filterKeys.Some? && Filters(request) == {p}
    requires BreaksAt(p, i, strategy)
    ensures KeyOf(other) == KeyOf(request) && other.filterKeys.Some? && Filters(other) == {rest} && |rest| < |p|
  {
    var around := Around(request.strategy);
    var colon :| 0 <= colon < i && p[..i][colon] == ':';
    rest := p[i + 1 + |Around(strategy)|..];
    var d, v := around + p[..colon], p[colon + 1..i];
    other := Request(map[d := String(v)], Some([rest]), strategy);
    SetOfOne(rest);
    OneInOrder(rest);
    OneInOrder(p);
    KeyParts(other);
    NoQueryKey(request);
    OneMemberText(d, v);
    BreakingText(around, p, colon, i, Around(strategy));
  }

  lemma OneMemberText(d: string, v: string)
    ensures Text(Object(map[d := String(v)])) == d + ":" + v + "$"
  {
    var j := Object(map[d := String(v)]);
    LeqTotal(d, d);
    assert j.members.Keys == {d};
    FirstIs({d}, d);
    assert {d} - {d} == {};
    assert MembersText(j, {d}) == d + ":" + v + "$" + "";
  }

  lemma BreakingText(around: string, p: string, colon: nat, i: nat, sep: string)
    requires colon < i < |p| && p[colon] == ':' && p[i] == '$' && sep <= p[i + 1..]
    ensures (around + p[..colon]) + ":" + p[colon + 1..i] + "$" + (sep + p[i + 1 + |sep|..]) == around + p
  {
    assert p[i + 1..] == sep + p[i + 1 + |sep|..];
    assert p == p[..colon] + ":" + p[colon + 1..i] + "$" + p[i + 1..];
  }

  lemma BreakIsWrong(request: Request, p: string, i: int, strategy: MergeStrategy) returns (config: Config)
    requires request.query == map[] && request.filterKeys.Some? && Filters(request) == {p}
    requires BreaksAt(p, i, strategy)
    ensures !HitsRight(config, request, Same())
  {
    var other, rest := BreakingKey(request, p, i, strategy);
    var key := if rest <= p then rest else p;
    assert HasPrefix(p, {p}) && HasPrefix(rest, {rest}) by {
      assert p in {p} && rest in {rest};
    }
    assert HasPrefix(key, {p}) <==> p <= key;
    assert HasPrefix(key, {rest}) <==> rest <= key;
    config := FilterIsWrong(request, other, key);
  }

  lemma UnsafeIsWrong(request: Request) returns (config: Config)
    requires !Safe(request)
    ensures !HitsRight(config, request, Same())
  {
    if request.filterKeys.None? {
      config := NullFilterIsWrong(request);
    } else if Filters(request) == {} {
      config := EmptyFilterIsWrong(request);
    } else if request.query != map[] {
      var d :| d in request.query;
      config := QueryIsWrong(request, d, First(Filters(request)));
    } else if Filters(request) - {First(Filters(request))} != {} {
      config := SeveralAreWrong(request);
    } else {
      var p := First(Filters(request));
      assert Filters(request) == {p};
      config := PeculiarIsWrong(request, p);
    }
  }

  lemma PeculiarIsWrong(request: Request, p: string) returns (config: Config)
    requires !Safe(request) && request.query == map[] && request.filterKeys.Some? && Filters(request) == {p}
    ensures !HitsRight(config, request, Same())
  {
    if p == "" {
      config := EmptyFilterIsWrong(request);
    } else if p == "null" {
      config := NullFilterIsWrong(request);
    } else if i :| SplitsAt(p, i) {
      config := SplitIsWrong(request, p, i);
    } else {
      var i, strategy :| BreaksAt(p, i, strategy);
      config := BreakIsWrong(request, p, i, strategy);
    }
  }

  /** Hits for a request are right on every configuration exactly when the request is safe. In
      particular no request that gives a dimension a value is, filtered or not. */
  lemma HitsAlwaysRightIff(request: Request)
    ensures (forall config, expand :: HitsRight(config, request, expand)) <==> Safe(request)
  {
    if Safe(request) {
      forall config, expand ensures HitsRight(config, request, expand) {
        SafeIsRight(config, request, expand);
      }
    } else {
      var config := UnsafeIsWrong(request);
      assert !HitsRight(config, request, Same());
    }
  }
}
