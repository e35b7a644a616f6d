/** Taking sequences apart at their end. */
module Sequences {
  lemma SnocParts<T>(init: seq<T>, last: T)
    ensures (init + [last])[..|init|] == init && (init + [last])[|init|] == last
  {
  }

  lemma TakeOneMore<T>(s: seq<T>, i: nat)
    requires i < |s|
    ensures s[..i + 1] == s[..i] + [s[i]] && s[..i + 1][..i] == s[..i]
  {
  }

  /** What agrees for a while agrees for a shorter while. */
  lemma SamePrefix<T>(a: seq<T>, b: seq<T>, n: nat, m: nat)
    requires m <= n <= |a| && n <= |b| && a[..n] == b[..n]
    ensures a[..m] == b[..m]
  {
    assert a[..m] == a[..n][..m] && b[..m] == b[..n][..m];
  }

  ghost predicate Distinct<T>(s: seq<T>) {
    forall i, j :: 0 <= i < j < |s| ==> s[i] != s[j]
  }

  lemma DistinctAppend<T>(a: seq<T>, b: seq<T>)
    requires Distinct(a) && Distinct(b) && forall x :: x in a ==> x !in b
    ensures Distinct(a + b)
  {
    var s := a + b;
    forall i, j | 0 <= i < j < |s| ensures s[i] != s[j] {
      if i < |a| <= j {
        assert s[i] in a && s[j] in b;
      }
    }
  }

  /** `picked` are the elements of `all` at these places, in their order. */
  ghost predicate Picks<T>(all: seq<T>, picked: seq<T>, places: seq<nat>) {
    && Ascending(places, |all|) && |picked| == |places|
    && forall j :: 0 <= j < |places| ==> picked[j] == all[places[j]]
  }

  ghost predicate Ascending(places: seq<nat>, bound: nat) {
    && (forall j :: 0 <= j < |places| ==> places[j] < bound)
    && forall i, j :: 0 <= i < j < |places| ==> places[i] < places[j]
  }

  /** One more element, which is picked or not. */
  lemma PicksOneMore<T>(all: seq<T>, picked: seq<T>, places: seq<nat>, last: T)
    requires Picks(all, picked, places)
    ensures Picks(all + [last], picked, places)
    ensures Picks(all + [last], picked + [last], places + [|all|])
  {
  }

  lemma PlacesOneMore(places: seq<nat>, bound: nat)
    requires Ascending(places, bound)
    ensures Ascending(places, bound + 1) && Ascending(places + [bound], bound + 1)
    ensures bound !in places && forall i :: i in places + [bound] <==> i in places || i == bound
  {
  }
}
