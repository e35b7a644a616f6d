/** The text under which a resolved configuration is cached. */
module CacheKey {
  import opened Wrappers
  import opened JsonValues
  import opened Resolution
  import opened Sequences
  import opened Strings

  // ---------- Sorting strings ----------

  predicate Leq(a: string, b: string) {
    a == "" || (b != "" && (a[0] < b[0] || (a[0] == b[0] && Leq(a[1..], b[1..]))))
  }

  lemma {:induction false} LeqTotal(a: string, b: string)
    ensures Leq(a, b) || Leq(b, a)
    ensures Leq(a, b) && Leq(b, a) ==> a == b
  {
    if a != "" && b != "" {
      LeqTotal(a[1..], b[1..]);
      assert a == [a[0]] + a[1..] && b == [b[0]] + b[1..];
    }
  }

  lemma {:induction false} LeqTransitive(a: string, b: string, c: string)
    requires Leq(a, b) && Leq(b, c)
    ensures Leq(a, c)
  {
    if a != "" && a[0] == b[0] == c[0] {
      LeqTransitive(a[1..], b[1..], c[1..]);
    }
  }

  /** It is the order of strings that compares them at their first difference. */
  lemma {:induction false} LeqIsLexicographic(a: string, b: string)
    ensures Leq(a, b) <==> a == b || Precedes(a, b)
  {
    if a != "" && b != "" {
      assert a == [a[0]] + a[1..] && b == [b[0]] + b[1..];
      if a[0] == b[0] {
        PrecedesNext(a, b);
        LeqIsLexicographic(a[1..], b[1..]);
      } else {
        PrecedesAtOnce(a, b);
      }
    }
  }

  ghost predicate InOrder(texts: seq<string>) {
    forall i, j :: 0 <= i < j < |texts| ==> Leq(texts[i], texts[j])
  }

  ghost function Inserted(text: string, sorted: seq<string>): seq<string> {
    if sorted == [] then [text]
    else if Leq(text, sorted[0]) then [text] + sorted
    else [sorted[0]] + Inserted(text, sorted[1..])
  }

  ghost function Sorted(texts: seq<string>): seq<string> {
    if texts == [] then [] else Inserted(texts[|texts| - 1], Sorted(texts[..|texts| - 1]))
  }

  lemma {:induction false} InsertedHasAll(text: string, sorted: seq<string>)
    ensures multiset(Inserted(text, sorted)) == multiset(sorted) + multiset{text}
  {
    if sorted != [] {
      assert sorted == [sorted[0]] + sorted[1..];
      if !Leq(text, sorted[0]) {
        InsertedHasAll(text, sorted[1..]);
      }
    }
  }

  lemma {:induction false} InsertedIsSorted(text: string, sorted: seq<string>)
    requires InOrder(sorted)
    ensures InOrder(Inserted(text, sorted))
  {
    if sorted != [] {
      LeqTotal(text, sorted[0]);
      if Leq(text, sorted[0]) {
        forall j | 0 <= j < |sorted| ensures Leq(text, sorted[j]) {
          if j > 0 {
            LeqTransitive(text, sorted[0], sorted[j]);
          }
        }
      } else {
        InsertedIsSorted(text, sorted[1..]);
        FirstStaysFirst(text, sorted);
      }
    }
  }

  lemma FirstStaysFirst(text: string, sorted: seq<string>)
    requires InOrder(sorted) && sorted != [] && Leq(sorted[0], text)
    ensures forall j :: 0 <= j < |Inserted(text, sorted[1..])| ==> Leq(sorted[0], Inserted(text, sorted[1..])[j])
  {
    var tail := Inserted(text, sorted[1..]);
    InsertedHasAll(text, sorted[1..]);
    forall j | 0 <= j < |tail| ensures Leq(sorted[0], tail[j]) {
      assert tail[j] in multiset(tail);
      if tail[j] != text {
        assert tail[j] in sorted[1..];
        var i :| 0 <= i < |sorted[1..]| && sorted[1..][i] == tail[j];
        assert Leq(sorted[0], sorted[i + 1]);
      }
    }
  }

  lemma {:induction false} SortedIsSorted(texts: seq<string>)
    ensures InOrder(Sorted(texts))
    ensures multiset(Sorted(texts)) == multiset(texts)
  {
    if texts != [] {
      var init, last := texts[..|texts| - 1], texts[|texts| - 1];
      assert texts == init + [last];
      SortedIsSorted(init);
      InsertedIsSorted(last, Sorted(init));
      InsertedHasAll(last, Sorted(init));
    }
  }

  /** There is only one way to arrange the same strings in order. */
  lemma {:induction false} OrderIsUnique(a: seq<string>, b: seq<string>)
    requires InOrder(a) && InOrder(b) && multiset(a) == multiset(b)
    ensures a == b
    decreases |a|
  {
    if a == [] {
      assert |multiset(b)| == 0;
    } else {
      assert |multiset(b)| == |a|;
      SameFirst(a, b);
      WithoutFirst(a);
      WithoutFirst(b);
      OrderIsUnique(a[1..], b[1..]);
    }
  }

  lemma WithoutFirst(texts: seq<string>)
    requires texts != []
    ensures multiset(texts[1..]) == multiset(texts) - multiset{texts[0]}
    ensures texts == [texts[0]] + texts[1..]
  {
    assert texts == [texts[0]] + texts[1..];
  }

  lemma SameFirst(a: seq<string>, b: seq<string>)
    requires InOrder(a) && InOrder(b) && multiset(a) == multiset(b) && a != [] && b != []
    ensures a[0] == b[0]
  {
    assert a[0] in multiset(a) && b[0] in multiset(b);
    LeastComesFirst(a, b[0]);
    LeastComesFirst(b, a[0]);
    LeqTotal(a[0], b[0]);
  }

  lemma LeastComesFirst(a: seq<string>, text: string)
    requires InOrder(a) && text in a
    ensures Leq(a[0], text)
  {
    var i :| 0 <= i < |a| && a[i] == text;
    if i == 0 {
      LeqTotal(text, text);
    }
  }

  /** The search for the place of a string may skip what does not follow it. */
  lemma InsertedSkips(text: string, sorted: seq<string>, at: nat)
    requires at < |sorted| && !Leq(text, sorted[at])
    ensures sorted[..at] + Inserted(text, sorted[at..]) == sorted[..at + 1] + Inserted(text, sorted[at + 1..])
  {
    assert sorted[at..][1..] == sorted[at + 1..];
    TakeOneMore(sorted, at);
  }

  /** Sorts by inserting one string after the other. */
  method SortTexts(texts: seq<string>) returns (sorted: seq<string>)
    ensures InOrder(sorted) && multiset(sorted) == multiset(texts)
    ensures sorted == Sorted(texts)
  {
    sorted := [];
    for i := 0 to |texts|
      invariant sorted == Sorted(texts[..i])
    {
      var at := 0;
      while at < |sorted| && !Leq(texts[i], sorted[at])
        invariant 0 <= at <= |sorted|
        invariant Inserted(texts[i], sorted) == sorted[..at] + Inserted(texts[i], sorted[at..])
      {
        InsertedSkips(texts[i], sorted, at);
        at := at + 1;
      }
      TakeOneMore(texts, i);
      sorted := sorted[..at] + [texts[i]] + sorted[at..];
    }
    assert texts[..|texts|] == texts;
    SortedIsSorted(texts);
  }

  // ---------- Documents as text ----------

  ghost predicate Least(key: string, keys: set<string>) {
    key in keys && forall other :: other in keys ==> Leq(key, other)
  }

  lemma {:induction false} LeastExists(keys: set<string>)
    requires keys != {}
    ensures exists key :: Least(key, keys)
  {
    var key :| key in keys;
    LeqTotal(key, key);
    if keys - {key} == {} {
      assert forall other :: other in keys ==> other == key || other in keys - {key};
      assert Least(key, keys);
    } else {
      LeastExists(keys - {key});
      var other :| Least(other, keys - {key});
      LeqTotal(key, other);
      var low := if Leq(key, other) then key else other;
      forall k | k in keys ensures Leq(low, k) {
        if k != key {
          assert k in keys - {key};
          if low == key {
            LeqTransitive(key, other, k);
          }
        }
      }
      assert Least(low, keys);
    }
  }

  lemma LeastIsUnique(a: string, b: string, keys: set<string>)
    requires Least(a, keys) && Least(b, keys)
    ensures a == b
  {
    LeqTotal(a, b);
  }

  ghost function First(keys: set<string>): (key: string)
    requires keys != {}
    ensures Least(key, keys)
  {
    LeastExists(keys);
    var key :| Least(key, keys);
    key
  }

  function Join(texts: seq<string>): string {
    if texts == [] then ""
    else if |texts| == 1 then texts[0]
    else texts[0] + "," + Join(texts[1..])
  }

  /** The text of a document: array items in the order of their texts, members in the order
      of their keys. */
  ghost function Text(j: Json): string
    decreases j, 1, 0
  {
    match j
    case Null => "null"
    case Bool(flag) => if flag then "true" else "false"
    case Number(text) => text
    case String(chars) => chars
    case Array(items) => Join(Sorted(Texts(j, |items|)))
    case Object(members) => MembersText(j, members.Keys)
  }

  ghost function Texts(j: Json, n: nat): (texts: seq<string>)
    requires j.Array? && n <= |j.items|
    ensures |texts| == n
    ensures forall i :: 0 <= i < n ==> texts[i] == Text(j.items[i])
    decreases j, 0, n
  {
    if n == 0 then [] else Texts(j, n - 1) + [Text(j.items[n - 1])]
  }

  ghost function MembersText(j: Json, keys: set<string>): string
    requires j.Object? && keys <= j.members.Keys
    decreases j, 0, |keys|
  {
    if keys == {} then ""
    else
      var key := First(keys);
      key + ":" + Text(j.members[key]) + "$" + MembersText(j, keys - {key})
  }

  lemma Regroup(text: string, key: string, member: string, rest: string)
    ensures text + (key + ":" + member + "$") + rest == text + (key + ":" + member + "$" + rest)
  {
    var entry := key + ":" + member + "$";
    assert text + entry + rest == text + (entry + rest);
  }

  method JsonToSortedString(j: Json) returns (text: string)
    ensures text == Text(j)
    decreases j
  {
    match j {
      case Null => text := "null";
      case Bool(flag) => text := if flag then "true" else "false";
      case Number(number) => text := number;
      case String(chars) => text := chars;
      case Array(items) =>
        var texts := [];
        for i := 0 to |items|
          invariant texts == Texts(j, i)
        {
          var item := JsonToSortedString(items[i]);
          texts := texts + [item];
        }
        texts := SortTexts(texts);
        text := Join(texts);
      case Object(members) =>
        text := "";
        var remaining := members.Keys;
        while remaining != {}
          invariant remaining <= members.Keys
          invariant text + MembersText(j, remaining) == MembersText(j, members.Keys)
        {
          var key := FirstOf(remaining);
          var member := JsonToSortedString(members[key]);
          LeastIsUnique(key, First(remaining), remaining);
          Regroup(text, key, member, MembersText(j, remaining - {key}));
          text := text + (key + ":" + member + "$");
          remaining := remaining - {key};
        }
    }
  }

  /** The first of the keys in order. */
  method FirstOf(keys: set<string>) returns (first: string)
    requires keys != {}
    ensures Least(first, keys)
  {
    first :| first in keys;
    var remaining := keys - {first};
    LeqTotal(first, first);
    while remaining != {}
      invariant remaining <= keys && first in keys
      invariant forall other :: other in keys && other !in remaining ==> Leq(first, other)
    {
      var key :| key in remaining;
      LeqTotal(key, first);
      LeqTotal(key, key);
      if !Leq(first, key) {
        forall other | other in keys && other !in remaining ensures Leq(key, other) {
          LeqTransitive(key, first, other);
        }
        first := key;
      }
      remaining := remaining - {key};
    }
  }

  // ---------- Reordering does not change the text ----------

  ghost predicate Permutation(p: seq<nat>, n: nat) {
    |p| == n && (forall i :: 0 <= i < n ==> p[i] < n)
    && forall i, j :: 0 <= i < j < n ==> p[i] != p[j]
  }

  /** `b` is `a` with the items of its arrays reordered, at any depth. */
  ghost predicate Reordered(a: Json, b: Json)
    decreases a
  {
    match a
    case Array(items) =>
      b.Array? && |b.items| == |items| &&
      exists p: seq<nat> :: Permutation(p, |items|) &&
        forall i :: 0 <= i < |items| ==> Reordered(items[i], b.items[p[i]])
    case Object(members) =>
      b.Object? && b.members.Keys == members.Keys &&
      forall key :: key in members ==> Reordered(members[key], b.members[key])
    case _ => a == b
  }

  /** Reading a sequence through a permutation keeps its multiset. */
  lemma {:induction false} PermutedMultiset(a: seq<string>, b: seq<string>, p: seq<nat>)
    requires |a| == |b| && Permutation(p, |a|)
    requires forall i :: 0 <= i < |a| ==> a[i] == b[p[i]]
    ensures multiset(a) == multiset(b)
    decreases |a|
  {
    if a != [] {
      var n := |a| - 1;
      var hole := p[n];
      var q := seq(n, i requires 0 <= i < n => if p[i] < hole then p[i] else p[i] - 1);
      var rest := b[..hole] + b[hole + 1..];
      assert b == b[..hole] + [b[hole]] + b[hole + 1..];
      assert a == a[..n] + [a[n]];
      forall i | 0 <= i < n ensures q[i] < n && a[..n][i] == rest[q[i]] {
        assert p[i] != p[n];
      }
      PermutedMultiset(a[..n], rest, q);
    }
  }

  /** Documents that differ only by reordering have the same text. */
  lemma {:induction false} ReorderedSameText(a: Json, b: Json)
    requires Reordered(a, b)
    ensures Text(a) == Text(b)
    decreases a, 1, 0
  {
    if a.Array? {
      var n := |a.items|;
      var p: seq<nat> :| Permutation(p, n) && forall i :: 0 <= i < n ==> Reordered(a.items[i], b.items[p[i]]);
      forall i | 0 <= i < n ensures Texts(a, n)[i] == Texts(b, n)[p[i]] {
        ReorderedSameText(a.items[i], b.items[p[i]]);
      }
      PermutedMultiset(Texts(a, n), Texts(b, n), p);
      SortedIsSorted(Texts(a, n));
      SortedIsSorted(Texts(b, n));
      OrderIsUnique(Sorted(Texts(a, n)), Sorted(Texts(b, n)));
    } else if a.Object? {
      ReorderedSameMembers(a, b, a.members.Keys);
    }
  }

  lemma {:induction false} ReorderedSameMembers(a: Json, b: Json, keys: set<string>)
    requires a.Object? && Reordered(a, b) && keys <= a.members.Keys
    ensures MembersText(a, keys) == MembersText(b, keys)
    decreases a, 0, |keys|
  {
    if keys != {} {
      var key := First(keys);
      ReorderedSameText(a.members[key], b.members[key]);
      ReorderedSameMembers(a, b, keys - {key});
    }
  }

  // ---------- Requests ----------

  datatype Request = Request(
    query: map<string, Json>,
    filterKeys: Option<seq<string>>,
    strategy: MergeStrategy)

  ghost function InOrderOf(keys: set<string>): seq<string> {
    if keys == {} then [] else [First(keys)] + InOrderOf(keys - {First(keys)})
  }

  function StrategyText(strategy: MergeStrategy): string {
    match strategy case REPLACE => "replace" case MERGE => "merge"
  }

  ghost function KeyOf(request: Request): string {
    Text(Object(request.query)) + "?" + StrategyText(request.strategy) + "?" +
    if request.filterKeys.Some? then Join(InOrderOf(set key | key in request.filterKeys.value)) else "null"
  }

  /** Builds the cache key: the filter keys go through an ordered set first. */
  method HashKey(request: Request) returns (key: string)
    ensures key == KeyOf(request)
  {
    var filters := "null";
    if request.filterKeys.Some? {
      var remaining := set key | key in request.filterKeys.value;
      var sorted := [];
      while remaining != {}
        invariant sorted + InOrderOf(remaining) == InOrderOf(set key | key in request.filterKeys.value)
      {
        var first := FirstOf(remaining);
        LeastIsUnique(first, First(remaining), remaining);
        sorted := sorted + [first];
        remaining := remaining - {first};
      }
      assert sorted + [] == sorted;
      filters := Join(sorted);
    }
    var query := JsonToSortedString(Object(request.query));
    key := query + "?" + StrategyText(request.strategy) + "?" + filters;
  }

  /** Requests that mean the same up to the order of array items and of filter keys share a
      cache key. */
  lemma EquivalentRequestsShareKey(a: Request, b: Request)
    requires Reordered(Object(a.query), Object(b.query))
    requires a.strategy == b.strategy && (a.filterKeys.Some? <==> b.filterKeys.Some?)
    requires a.filterKeys.Some? ==>
      (set key | key in a.filterKeys.value) == (set key | key in b.filterKeys.value)
    ensures KeyOf(a) == KeyOf(b)
  {
    ReorderedSameText(Object(a.query), Object(b.query));
  }
}
