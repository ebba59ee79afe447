/**
 The counts a recorder's joined requests come to, and the join of one URL's page requests to the
 session's observations of it.
 */
module StackTally {
  import opened Utf16
  import opened CallStackPublisher

  datatype Counted = Counted(key: JsString, count: nat)

  /** Where a request goes: with a category, or with nothing the session observed. */
  datatype Place = At(category: Category) | Unobserved

  datatype Counts = Counts(groups: seq<Counted>, redirected: nat, withoutStack: nat, withoutNamedScript: nat,
                           notListed: nat, unobserved: nat)

  const ZERO := Counts([], 0, 0, 0, 0, 0)

  // ---- Counts ----

  function GroupCount(groups: seq<Counted>, key: JsString): nat {
    if groups == [] then 0
    else if groups[0].key == key then groups[0].count
    else GroupCount(groups[1..], key)
  }

  function Bumped(groups: seq<Counted>, key: JsString): seq<Counted> {
    if groups == [] then [Counted(key, 1)]
    else if groups[0].key == key then [Counted(key, groups[0].count + 1)] + groups[1..]
    else [groups[0]] + Bumped(groups[1..], key)
  }

  function Sum(groups: seq<Counted>): nat {
    if groups == [] then 0 else groups[0].count + Sum(groups[1..])
  }

  function Added(t: Counts, place: Place): Counts {
    match place
    case Unobserved => t.(unobserved := t.unobserved + 1)
    case At(Redirected) => t.(redirected := t.redirected + 1)
    case At(WithoutStack) => t.(withoutStack := t.withoutStack + 1)
    case At(WithoutNamedScript) => t.(withoutNamedScript := t.withoutNamedScript + 1)
    case At(NotListed) => t.(notListed := t.notListed + 1)
    case At(Group(key)) => t.(groups := Bumped(t.groups, key))
  }

  /** How many requests are at `place`. */
  function CountAt(t: Counts, place: Place): nat {
    match place
    case Unobserved => t.unobserved
    case At(Redirected) => t.redirected
    case At(WithoutStack) => t.withoutStack
    case At(WithoutNamedScript) => t.withoutNamedScript
    case At(NotListed) => t.notListed
    case At(Group(key)) => GroupCount(t.groups, key)
  }

  function Units(t: Counts): nat {
    Sum(t.groups) + t.redirected + t.withoutStack + t.withoutNamedScript + t.notListed + t.unobserved
  }

  /** Keys are those of a map, and a key is there because something was counted under it. */
  ghost predicate WellCounted(groups: seq<Counted>) {
    && (forall i, j :: 0 <= i < j < |groups| ==> groups[i].key != groups[j].key)
    && forall i :: 0 <= i < |groups| ==> groups[i].count > 0
  }

  predicate HasGroup(groups: seq<Counted>, key: JsString) {
    exists i :: 0 <= i < |groups| && groups[i].key == key
  }

  lemma {:induction false} BumpCounts(groups: seq<Counted>, key: JsString, other: JsString)
    ensures GroupCount(Bumped(groups, key), other) == GroupCount(groups, other) + if other == key then 1 else 0
    ensures Sum(Bumped(groups, key)) == Sum(groups) + 1
  {
    if groups != [] && groups[0].key != key {
      BumpCounts(groups[1..], key, other);
    }
  }

  lemma {:induction false} BumpKeys(groups: seq<Counted>, key: JsString)
    ensures forall k :: HasGroup(Bumped(groups, key), k) <==> k == key || HasGroup(groups, k)
  {
    var after := Bumped(groups, key);
    if groups == [] {
      assert after[0].key == key;
    } else if groups[0].key == key {
      assert after[0].key == key;
      forall k
        ensures HasGroup(after, k) <==> HasGroup(groups, k)
      {
        assert forall i :: 0 <= i < |groups| ==> after[i].key == groups[i].key;
      }
    } else {
      BumpKeys(groups[1..], key);
      forall k
        ensures HasGroup(after, k) <==> k == groups[0].key || HasGroup(Bumped(groups[1..], key), k)
        ensures HasGroup(groups, k) <==> k == groups[0].key || HasGroup(groups[1..], k)
      {
        HeadOrTail(after, k);
        HeadOrTail(groups, k);
      }
    }
  }

  lemma HeadOrTail(groups: seq<Counted>, key: JsString)
    requires groups != []
    ensures HasGroup(groups, key) <==> groups[0].key == key || HasGroup(groups[1..], key)
  {
    if HasGroup(groups, key) && groups[0].key != key {
      var i :| 0 <= i < |groups| && groups[i].key == key;
      assert groups[1..][i - 1].key == key;
    }
    if HasGroup(groups[1..], key) {
      var i :| 0 <= i < |groups[1..]| && groups[1..][i].key == key;
      assert groups[i + 1].key == key;
    }
  }

  lemma {:induction false} BumpStaysWellCounted(groups: seq<Counted>, key: JsString)
    requires WellCounted(groups)
    ensures WellCounted(Bumped(groups, key))
  {
    if groups != [] && groups[0].key != key {
      var rest := Bumped(groups[1..], key);
      BumpStaysWellCounted(groups[1..], key);
      BumpKeys(groups[1..], key);
      forall j | 0 <= j < |rest|
        ensures rest[j].key != groups[0].key
      {
        assert HasGroup(rest, rest[j].key);
      }
    }
  }

  lemma AddCounts(t: Counts, place: Place, other: Place)
    ensures CountAt(Added(t, place), other) == CountAt(t, other) + if other == place then 1 else 0
    ensures Units(Added(t, place)) == Units(t) + 1
    ensures WellCounted(t.groups) ==> WellCounted(Added(t, place).groups)
  {
    if place.At? && place.category.Group? {
      BumpCounts(t.groups, place.category.key, if other.At? && other.category.Group? then other.category.key else []);
      if WellCounted(t.groups) {
        BumpStaysWellCounted(t.groups, place.category.key);
      }
    }
  }

  // ---- The join ----

  function Least(a: nat, b: nat): nat { if a < b then a else b }

  /** Requests that take an observation, and those whose observation a bound dropped. */
  datatype Split = Split(joined: nat, dropped: nat)

  function SplitOf(pageRequests: nat, observations: nat, observationsDropped: nat): (s: Split)
    ensures s.joined + s.dropped <= pageRequests && s.joined <= observations
  {
    var joined := Least(pageRequests, observations);
    Split(joined, Least(pageRequests - joined, observationsDropped))
  }

  function NumberCounted(counted: nat -> bool, n: nat): (c: nat)
    ensures c <= n
  {
    if n == 0 then 0 else NumberCounted(counted, n - 1) + if counted(n - 1) then 1 else 0
  }

  /** Some of the URL's requests are unseen, and only some are broken down: nothing says which is which. */
  predicate Ambiguous(pageRequests: nat, split: Split, counted: nat -> bool) {
    pageRequests > split.joined + split.dropped && 0 < NumberCounted(counted, pageRequests) < pageRequests
  }

  /** Where the request at `index` goes. */
  function PlaceOf(index: nat, pageRequests: nat, observations: seq<Category>, observationsDropped: nat,
                   counted: nat -> bool): Place
    requires index < pageRequests
  {
    var split := SplitOf(pageRequests, |observations|, observationsDropped);
    if Ambiguous(pageRequests, split, counted) then Unobserved
    else if index < split.joined then At(observations[index])
    else if index < split.joined + split.dropped then At(NotListed)
    else Unobserved
  }

  function JoinedUpTo(t: Counts, n: nat, pageRequests: nat, observations: seq<Category>, observationsDropped: nat,
                      counted: nat -> bool): Counts
    requires n <= pageRequests
  {
    if n == 0 then t
    else
      var before := JoinedUpTo(t, n - 1, pageRequests, observations, observationsDropped, counted);
      if counted(n - 1) then Added(before, PlaceOf(n - 1, pageRequests, observations, observationsDropped, counted))
      else before
  }

  function Joined(t: Counts, pageRequests: nat, observations: seq<Category>, observationsDropped: nat,
                  counted: nat -> bool): Counts
  {
    JoinedUpTo(t, pageRequests, pageRequests, observations, observationsDropped, counted)
  }

  /** How many of the first `n` requests are broken down at `place`. */
  function NumberAt(place: Place, n: nat, pageRequests: nat, observations: seq<Category>, observationsDropped: nat,
                    counted: nat -> bool): (c: nat)
    requires n <= pageRequests
    ensures c <= n
  {
    if n == 0 then 0
    else
      NumberAt(place, n - 1, pageRequests, observations, observationsDropped, counted) +
      if counted(n - 1) && PlaceOf(n - 1, pageRequests, observations, observationsDropped, counted) == place then 1 else 0
  }

  /** Every place gains exactly the requests that go there, so the join adds one unit for each counted request. */
  lemma {:induction false} JoinCounts(t: Counts, n: nat, pageRequests: nat, observations: seq<Category>,
                                      observationsDropped: nat, counted: nat -> bool, place: Place)
    requires n <= pageRequests
    ensures var after := JoinedUpTo(t, n, pageRequests, observations, observationsDropped, counted);
      && CountAt(after, place) == CountAt(t, place) + NumberAt(place, n, pageRequests, observations, observationsDropped, counted)
      && Units(after) == Units(t) + NumberCounted(counted, n)
      && (WellCounted(t.groups) ==> WellCounted(after.groups))
  {
    if n > 0 {
      JoinCounts(t, n - 1, pageRequests, observations, observationsDropped, counted, place);
      if counted(n - 1) {
        AddCounts(JoinedUpTo(t, n - 1, pageRequests, observations, observationsDropped, counted),
                  PlaceOf(n - 1, pageRequests, observations, observationsDropped, counted), place);
      }
    }
  }

  /** A request that is not broken down never gives its stack away while some requests are unseen. */
  lemma {:induction false} AmbiguousRequestsTakeNothing(t: Counts, pageRequests: nat, observations: seq<Category>,
                                                        observationsDropped: nat, counted: nat -> bool, place: Place)
    requires Ambiguous(pageRequests, SplitOf(pageRequests, |observations|, observationsDropped), counted)
    ensures CountAt(Joined(t, pageRequests, observations, observationsDropped, counted), place) ==
      CountAt(t, place) + if place == Unobserved then NumberCounted(counted, pageRequests) else 0
  {
    JoinCounts(t, pageRequests, pageRequests, observations, observationsDropped, counted, place);
    AllUnobserved(pageRequests, pageRequests, observations, observationsDropped, counted, place);
  }

  lemma {:induction false} AllUnobserved(n: nat, pageRequests: nat, observations: seq<Category>, observationsDropped: nat,
                                         counted: nat -> bool, place: Place)
    requires n <= pageRequests
    requires Ambiguous(pageRequests, SplitOf(pageRequests, |observations|, observationsDropped), counted)
    ensures NumberAt(place, n, pageRequests, observations, observationsDropped, counted) ==
      if place == Unobserved then NumberCounted(counted, n) else 0
  {
    if n > 0 {
      AllUnobserved(n - 1, pageRequests, observations, observationsDropped, counted, place);
    }
  }

  // ---- Arrival order ----

  function Occurrences(s: seq<Category>, n: nat, c: Category): nat
    requires n <= |s|
  {
    if n == 0 then 0 else Occurrences(s, n - 1, c) + if s[n - 1] == c then 1 else 0
  }

  lemma {:induction false} OccurrencesAreMultiplicity(s: seq<Category>, n: nat, c: Category)
    requires n <= |s|
    ensures Occurrences(s, n, c) == multiset(s[..n])[c]
  {
    if n > 0 {
      OccurrencesAreMultiplicity(s, n - 1, c);
      assert s[..n] == s[..n - 1] + [s[n - 1]];
    }
  }

  lemma {:induction false} NumberWhenAllCounted(n: nat, pageRequests: nat, observations: seq<Category>,
                                                observationsDropped: nat, counted: nat -> bool, place: Place)
    requires n <= pageRequests && forall i: nat :: i < pageRequests ==> counted(i)
    ensures var split := SplitOf(pageRequests, |observations|, observationsDropped);
      NumberAt(place, n, pageRequests, observations, observationsDropped, counted) ==
      (if place.At? then Occurrences(observations, Least(n, split.joined), place.category) else 0) +
      (if place == At(NotListed) then Least(n, split.joined + split.dropped) - Least(n, split.joined) else 0) +
      (if place == Unobserved then n - Least(n, split.joined + split.dropped) else 0)
  {
    if n > 0 {
      NumberWhenAllCounted(n - 1, pageRequests, observations, observationsDropped, counted, place);
      AllCounted(pageRequests, pageRequests, counted);
    }
  }

  lemma {:induction false} AllCounted(n: nat, pageRequests: nat, counted: nat -> bool)
    requires n <= pageRequests && forall i: nat :: i < pageRequests ==> counted(i)
    ensures NumberCounted(counted, n) == n
  {
    if n > 0 {
      AllCounted(n - 1, pageRequests, counted);
    }
  }

  /** When every request is broken down, the order in which the session observed them changes no count. */
  lemma {:induction false} OrderChangesNothing(t: Counts, pageRequests: nat, a: seq<Category>, b: seq<Category>,
                                               observationsDropped: nat, counted: nat -> bool, place: Place)
    requires forall i: nat :: i < pageRequests ==> counted(i)
    requires multiset(a) == multiset(b) && |a| <= pageRequests
    ensures CountAt(Joined(t, pageRequests, a, observationsDropped, counted), place) ==
      CountAt(Joined(t, pageRequests, b, observationsDropped, counted), place)
  {
    assert |a| == |multiset(a)| == |multiset(b)| == |b|;
    JoinCounts(t, pageRequests, pageRequests, a, observationsDropped, counted, place);
    JoinCounts(t, pageRequests, pageRequests, b, observationsDropped, counted, place);
    NumberWhenAllCounted(pageRequests, pageRequests, a, observationsDropped, counted, place);
    NumberWhenAllCounted(pageRequests, pageRequests, b, observationsDropped, counted, place);
    if place.At? {
      assert a[..|a|] == a && b[..|b|] == b;
      OccurrencesAreMultiplicity(a, |a|, place.category);
      OccurrencesAreMultiplicity(b, |b|, place.category);
    }
  }

  // ---- The mutable tally ----

  class Tally {
    var groupCounts: seq<Counted>
    var redirected: nat
    var withoutStack: nat
    var withoutNamedScript: nat
    var notListed: nat
    var unobserved: nat

    constructor ()
      ensures State() == ZERO
    {
      groupCounts := [];
      redirected, withoutStack, withoutNamedScript, notListed, unobserved := 0, 0, 0, 0, 0;
    }

    function State(): Counts
      reads this
    {
      Counts(groupCounts, redirected, withoutStack, withoutNamedScript, notListed, unobserved)
    }

    method Add(category: Category)
      modifies this
      ensures State() == Added(old(State()), At(category))
    {
      match category {
        case Redirected => redirected := redirected + 1;
        case WithoutStack => withoutStack := withoutStack + 1;
        case WithoutNamedScript => withoutNamedScript := withoutNamedScript + 1;
        case NotListed => notListed := notListed + 1;
        case Group(key) => groupCounts := Bumped(groupCounts, key);
      }
    }

    method JoinObservations(pageRequests: nat, observations: seq<Category>, observationsDropped: nat, counted: nat -> bool)
      modifies this
      ensures State() == Joined(old(State()), pageRequests, observations, observationsDropped, counted)
    {
      var joined := Least(pageRequests, |observations|);
      var dropped := Least(pageRequests - joined, observationsDropped);
      ghost var start := State();
      if pageRequests > joined + dropped {
        var countedRequests := 0;
        for index := 0 to pageRequests
          invariant countedRequests == NumberCounted(counted, index)
        {
          if counted(index) {
            countedRequests := countedRequests + 1;
          }
        }
        if 0 < countedRequests < pageRequests {
          JoinAmbiguous(start, pageRequests, pageRequests, observations, observationsDropped, counted);
          unobserved := unobserved + countedRequests;
          return;
        }
      }
      for index := 0 to pageRequests
        invariant State() == JoinedUpTo(start, index, pageRequests, observations, observationsDropped, counted)
      {
        if !counted(index) {
          continue;
        }
        if index < joined {
          Add(observations[index]);
        } else if index < joined + dropped {
          notListed := notListed + 1;
        } else {
          unobserved := unobserved + 1;
        }
      }
    }
  }

  lemma {:induction false} JoinAmbiguous(t: Counts, n: nat, pageRequests: nat, observations: seq<Category>,
                                         observationsDropped: nat, counted: nat -> bool)
    requires n <= pageRequests
    requires Ambiguous(pageRequests, SplitOf(pageRequests, |observations|, observationsDropped), counted)
    ensures JoinedUpTo(t, n, pageRequests, observations, observationsDropped, counted) ==
      t.(unobserved := t.unobserved + NumberCounted(counted, n))
  {
    if n > 0 {
      JoinAmbiguous(t, n - 1, pageRequests, observations, observationsDropped, counted);
    }
  }
}
