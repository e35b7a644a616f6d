/** Which requests have different cache keys. */
module DistinctKeys {
  import opened Wrappers
  import opened JsonValues
  import opened Resolution
  import opened Strings
  import opened CacheKey
  import opened CacheSafety
  import opened Client

  // ---------- Printed values ----------

  /** How values that are no arrays and no objects are printed. */
  lemma ScalarTexts(flag: bool, chars: string)
    ensures Text(Null) == "null"
    ensures Text(Bool(true)) == "true" && Text(Bool(false)) == "false"
    ensures Text(Number(chars)) == chars && Text(String(chars)) == chars
  {
  }

  lemma {:induction false} SameMembersText(a: Json, b: Json, keys: set<string>)
    requires a.Object? && b.Object? && keys <= a.members.Keys && keys <= b.members.Keys
    requires forall key :: key in keys ==> a.members[key] == b.members[key]
    ensures MembersText(a, keys) == MembersText(b, keys)
    decreases |keys|
  {
    if keys != {} {
      SameMembersText(a, b, keys - {First(keys)});
    }
  }

  /** An object is printed from its first key on: the key, a colon, the printed member and a
      dollar sign, and then whatever else it has; an empty one leaves nothing. */
  lemma ObjectText(members: map<string, Json>, key: string)
    ensures Text(Object(map[])) == ""
    ensures key in members && (forall other :: other in members && other != key ==> Precedes(key, other)) ==>
      Text(Object(members)) == key + ":" + Text(members[key]) + "$" + Text(Object(members - {key}))
  {
    if key in members && forall other :: other in members && other != key ==> Precedes(key, other) {
      forall other | other in members ensures Leq(key, other) {
        LeqIsLexicographic(key, other);
      }
      FirstIs(members.Keys, key);
      var rest := members - {key};
      assert rest.Keys == members.Keys - {key};
      SameMembersText(Object(members), Object(rest), rest.Keys);
    }
  }

  /** An array is printed as the printed items in order, with commas between them. */
  lemma ArrayText(items: seq<Json>) returns (texts: seq<string>)
    ensures InOrder(texts) && multiset(texts) == multiset(seq(|items|, i requires 0 <= i < |items| => Text(items[i])))
    ensures Text(Array(items)) == Join(texts)
  {
    texts := Sorted(Texts(Array(items), |items|));
    SortedIsSorted(Texts(Array(items), |items|));
    PrintedItems(items);
  }

  lemma PrintedItems(items: seq<Json>)
    ensures Texts(Array(items), |items|) == seq(|items|, i requires 0 <= i < |items| => Text(items[i]))
  {
  }

  lemma {:induction false} JoinPuts(first: string, rest: seq<string>)
    ensures Join([]) == "" && Join([first]) == first
    ensures rest != [] ==> Join([first] + rest) == first + "," + Join(rest)
  {
    assert ([first] + rest)[1..] == rest;
  }

  /** The key of a request that asks for everything, for either strategy. */
  lemma PlainKey()
    ensures KeyOf(Request(map[], None, REPLACE)) == "?replace?null"
    ensures KeyOf(Request(map[], None, MERGE)) == "?merge?null"
  {
    NoQueryKey(Request(map[], None, REPLACE));
    NoQueryKey(Request(map[], None, MERGE));
  }

  // ---------- Cutting texts apart ----------

  /** A text ends where the separator, which it does not have, comes first. */
  lemma EndsAtSeparator(text: string, a: string, x: string, separator: char)
    requires text == a + [separator] + x && separator !in a
    ensures |a| < |text| && text[|a|] == separator && forall i :: 0 <= i < |a| ==> text[i] != separator
    ensures a == text[..|a|] && x == text[|a| + 1..]
  {
    forall i | 0 <= i < |a| ensures text[i] != separator {
      assert text[i] == a[i] && a[i] in a;
    }
  }

  /** Two texts that go on after a separator which neither has before. */
  lemma SameUpToSeparator(a: string, b: string, x: string, y: string, separator: char)
    requires separator !in a && separator !in b
    requires a + [separator] + x == b + [separator] + y
    ensures a == b && x == y
  {
    EndsAtSeparator(a + [separator] + x, a, x, separator);
    EndsAtSeparator(a + [separator] + x, b, y, separator);
  }

  lemma SameAfterPrefix(prefix: string, x: string, y: string)
    requires prefix + x == prefix + y
    ensures x == y
  {
    assert x == (prefix + x)[|prefix|..] && y == (prefix + y)[|prefix|..];
  }

  /** No printed value has a dollar sign, as is so for scalars without one. */
  ghost predicate Dollarless(query: map<string, Json>) {
    forall d :: d in query ==> '$' !in Text(query[d])
  }

  lemma MemberFirst(j: Json, keys: set<string>, rest: string)
    requires j.Object? && keys <= j.members.Keys && keys != {}
    ensures var key := First(keys);
            MembersText(j, keys) + rest
              == (key + ":") + (Text(j.members[key]) + ['$'] + (MembersText(j, keys - {key}) + rest))
  {
    var key := First(keys);
    assert "$" == ['$'];
    Shuffle(key, Text(j.members[key]), MembersText(j, keys - {key}), rest);
  }

  lemma Shuffle(key: string, text: string, more: string, rest: string)
    ensures key + ":" + text + "$" + more + rest == (key + ":") + (text + ['$'] + (more + rest))
  {
    var long := key + ":" + text + "$";
    assert long == (key + ":") + (text + ['$']);
    assert long + more + rest == long + (more + rest);
  }

  lemma {:induction false} MembersTextTells(a: Json, b: Json, keys: set<string>, x: string, y: string)
    requires a.Object? && b.Object? && keys <= a.members.Keys && keys <= b.members.Keys
    requires Dollarless(a.members) && Dollarless(b.members)
    requires MembersText(a, keys) + x == MembersText(b, keys) + y
    ensures forall key :: key in keys ==> Text(a.members[key]) == Text(b.members[key])
    ensures x == y
    decreases |keys|
  {
    if keys == {} {
      assert MembersText(a, keys) + x == x && MembersText(b, keys) + y == y;
    } else {
      var key := First(keys);
      var moreA, moreB := MembersText(a, keys - {key}) + x, MembersText(b, keys - {key}) + y;
      MemberFirst(a, keys, x);
      MemberFirst(b, keys, y);
      SameAfterPrefix(key + ":", Text(a.members[key]) + ['$'] + moreA, Text(b.members[key]) + ['$'] + moreB);
      SameUpToSeparator(Text(a.members[key]), Text(b.members[key]), moreA, moreB, '$');
      MembersTextTells(a, b, keys - {key}, x, y);
    }
  }

  // ---------- Filters ----------

  /** No filter, or prefixes that are not empty, not "null", and without a comma. */
  ghost predicate CleanFilter(request: Request) {
    request.filterKeys.Some? ==>
      forall p :: p in request.filterKeys.value ==> p != "" && p != "null" && ',' !in p
  }

  ghost predicate CleanTexts(texts: seq<string>) {
    forall i :: 0 <= i < |texts| ==> texts[i] != "" && ',' !in texts[i]
  }

  /** Texts without commas can be read back from their join. */
  lemma {:induction false} JoinTells(a: seq<string>, b: seq<string>)
    requires CleanTexts(a) && CleanTexts(b) && Join(a) == Join(b)
    ensures a == b
    decreases |a|
  {
    if a == [] || b == [] {
      JoinNotEmpty(a);
      JoinNotEmpty(b);
    } else {
      if |a| > 1 && |b| > 1 {
        assert "," == [','];
        SameUpToSeparator(a[0], b[0], Join(a[1..]), Join(b[1..]), ',');
        JoinTells(a[1..], b[1..]);
      } else if |a| > 1 {
        OneHasNoComma(b, a);
      } else if |b| > 1 {
        OneHasNoComma(a, b);
      }
      assert a == [a[0]] + a[1..] && b == [b[0]] + b[1..];
    }
  }

  lemma JoinNotEmpty(texts: seq<string>)
    requires CleanTexts(texts)
    ensures Join(texts) == "" <==> texts == []
  {
  }

  lemma OneHasNoComma(one: seq<string>, several: seq<string>)
    requires CleanTexts(one) && |one| == 1 && |several| > 1
    ensures Join(one) != Join(several)
  {
    assert Join(several)[|several[0]|] == ',';
    assert ',' in Join(several);
  }

  lemma {:induction false} InOrderOfHas(keys: set<string>)
    ensures forall key :: key in InOrderOf(keys) <==> key in keys
  {
    if keys != {} {
      InOrderOfHas(keys - {First(keys)});
    }
  }

  lemma CleanFilterTexts(request: Request)
    requires CleanFilter(request) && request.filterKeys.Some?
    ensures var texts := InOrderOf(Filters(request));
            CleanTexts(texts) && "null" !in texts && forall key :: key in texts <==> key in Filters(request)
  {
    var texts := InOrderOf(Filters(request));
    InOrderOfHas(Filters(request));
    forall i | 0 <= i < |texts| ensures texts[i] in request.filterKeys.value {
      assert texts[i] in texts;
    }
  }

  lemma CleanFiltersTell(a: Request, b: Request)
    requires CleanFilter(a) && CleanFilter(b)
    ensures FilterText(a) == FilterText(b) <==>
      (a.filterKeys.Some? <==> b.filterKeys.Some?) && (a.filterKeys.Some? ==> Filters(a) == Filters(b))
  {
    if a.filterKeys.Some? {
      CleanFilterTexts(a);
    }
    if b.filterKeys.Some? {
      CleanFilterTexts(b);
    }
    if a.filterKeys.Some? && b.filterKeys.Some? {
      if FilterText(a) == FilterText(b) {
        JoinTells(InOrderOf(Filters(a)), InOrderOf(Filters(b)));
        assert forall key :: key in Filters(a) <==> key in Filters(b);
      }
    } else if a.filterKeys.Some? {
      NotNull(InOrderOf(Filters(a)));
    } else if b.filterKeys.Some? {
      NotNull(InOrderOf(Filters(b)));
    }
  }

  lemma NotNull(texts: seq<string>)
    requires CleanTexts(texts) && "null" !in texts
    ensures Join(texts) != "null"
  {
    var alone := ["null"];
    assert "null" in alone && CleanTexts(alone) && Join(alone) == "null";
    if Join(texts) == "null" {
      JoinTells(texts, alone);
    }
  }

  // ---------- Keys ----------

  /** For requests that give the same dimensions values without a dollar sign, and whose prefixes
      have no peculiarities: their keys are the same exactly when every value prints to the same
      text, the strategy is the same, and so is the filter. */
  lemma SameKeyIff(a: Request, b: Request)
    requires a.query.Keys == b.query.Keys && Dollarless(a.query) && Dollarless(b.query)
    requires CleanFilter(a) && CleanFilter(b)
    ensures KeyOf(a) == KeyOf(b) <==>
      && (forall d :: d in a.query ==> Text(a.query[d]) == Text(b.query[d]))
      && a.strategy == b.strategy
      && (a.filterKeys.Some? <==> b.filterKeys.Some?) && (a.filterKeys.Some? ==> Filters(a) == Filters(b))
  {
    var endA, endB := Around(a.strategy) + FilterText(a), Around(b.strategy) + FilterText(b);
    KeyParts(a);
    KeyParts(b);
    CleanFiltersTell(a, b);
    if KeyOf(a) == KeyOf(b) {
      MembersTextTells(Object(a.query), Object(b.query), a.query.Keys, endA, endB);
      AroundDiffers(a.strategy, b.strategy, FilterText(a), FilterText(b));
      SameAfterPrefix(Around(a.strategy), FilterText(a), FilterText(b));
    } else if forall d :: d in a.query ==> Text(a.query[d]) == Text(b.query[d]) {
      SameTexts(Object(a.query), Object(b.query), a.query.Keys);
    }
  }

  // ---------- Scalars ----------

  /** Two numbers, two strings, two booleans, or twice null. */
  predicate SameKind(a: Json, b: Json) {
    || (a.Number? && b.Number?) || (a.String? && b.String?) || (a.Bool? && b.Bool?) || (a.Null? && b.Null?)
  }

  lemma SameKindSameText(a: Json, b: Json)
    requires SameKind(a, b)
    ensures Text(a) == Text(b) <==> a == b
  {
  }

  /** Where both give every dimension scalars of the same kind, only the same values, strategy and
      filter have the same key: two numbers only if they are the same number. So a hit brings
      the answer to the request itself. */
  lemma SameKindSharesKeyIff(a: Request, b: Request)
    requires a.query.Keys == b.query.Keys && Dollarless(a.query) && Dollarless(b.query)
    requires forall d :: d in a.query ==> SameKind(a.query[d], b.query[d])
    requires CleanFilter(a) && CleanFilter(b)
    ensures KeyOf(a) == KeyOf(b) <==>
      && a.query == b.query && a.strategy == b.strategy
      && (a.filterKeys.Some? <==> b.filterKeys.Some?) && (a.filterKeys.Some? ==> Filters(a) == Filters(b))
    ensures KeyOf(a) == KeyOf(b) ==> forall config, expand :: Answer(config, a, expand) == Answer(config, b, expand)
  {
    SameKeyIff(a, b);
    forall d | d in a.query ensures Text(a.query[d]) == Text(b.query[d]) <==> a.query[d] == b.query[d] {
      SameKindSameText(a.query[d], b.query[d]);
    }
  }
}
