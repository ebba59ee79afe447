/** The order in which groups are listed: largest count first, then by key. */
module StackRanking {
  import opened StackTally
  import CanonicalJson

  predicate Before(a: Counted, b: Counted) {
    a.count > b.count || (a.count == b.count && CanonicalJson.Less(a.key, b.key))
  }

  lemma BeforeIsTotal(a: Counted, b: Counted)
    ensures a.key == b.key || Before(a, b) || Before(b, a)
  {
    CanonicalJson.LessIsTotal(a.key, b.key);
  }

  lemma BeforeIsTransitive(a: Counted, b: Counted, c: Counted)
    requires Before(a, b) && Before(b, c)
    ensures Before(a, c)
  {
    if a.count == b.count == c.count {
      CanonicalJson.LessIsTransitive(a.key, b.key, c.key);
    }
  }

  ghost predicate IsRanked(groups: seq<Counted>) {
    forall i, j :: 0 <= i < j < |groups| ==> Before(groups[i], groups[j])
  }

  function Placed(g: Counted, ranked: seq<Counted>): (r: seq<Counted>)
    ensures multiset(r) == multiset(ranked) + multiset{g}
  {
    if ranked == [] || Before(g, ranked[0]) then [g] + ranked
    else
      assert ranked == [ranked[0]] + ranked[1..];
      [ranked[0]] + Placed(g, ranked[1..])
  }

  function Ranked(groups: seq<Counted>): (r: seq<Counted>)
    ensures multiset(r) == multiset(groups)
  {
    if groups == [] then []
    else
      assert groups == [groups[0]] + groups[1..];
      Placed(groups[0], Ranked(groups[1..]))
  }

  lemma {:induction false} PlacedIsRanked(g: Counted, ranked: seq<Counted>)
    requires IsRanked(ranked) && forall i :: 0 <= i < |ranked| ==> ranked[i].key != g.key
    ensures IsRanked(Placed(g, ranked))
  {
    if ranked == [] {
    } else if Before(g, ranked[0]) {
      forall j | 0 < j < |ranked|
        ensures Before(g, ranked[j])
      {
        BeforeIsTransitive(g, ranked[0], ranked[j]);
      }
    } else {
      BeforeIsTotal(g, ranked[0]);
      var rest := Placed(g, ranked[1..]);
      PlacedIsRanked(g, ranked[1..]);
      forall j | 0 <= j < |rest|
        ensures Before(ranked[0], rest[j])
      {
        assert rest[j] in multiset(rest);
        assert rest[j] == g || rest[j] in ranked[1..];
      }
    }
  }

  lemma {:induction false} RankedIsRanked(groups: seq<Counted>)
    requires WellCounted(groups)
    ensures IsRanked(Ranked(groups))
  {
    if groups != [] {
      RankedIsRanked(groups[1..]);
      forall i | 0 <= i < |Ranked(groups[1..])|
        ensures Ranked(groups[1..])[i].key != groups[0].key
      {
        assert Ranked(groups[1..])[i] in multiset(groups[1..]);
        assert Ranked(groups[1..])[i] in groups[1..];
      }
      PlacedIsRanked(groups[0], Ranked(groups[1..]));
    }
  }

  lemma {:induction false} SumOfPlaced(g: Counted, ranked: seq<Counted>)
    ensures Sum(Placed(g, ranked)) == g.count + Sum(ranked)
  {
    if ranked != [] && !Before(g, ranked[0]) {
      SumOfPlaced(g, ranked[1..]);
    }
  }

  lemma {:induction false} SumOfRanked(groups: seq<Counted>)
    ensures Sum(Ranked(groups)) == Sum(groups)
  {
    if groups != [] {
      SumOfRanked(groups[1..]);
      SumOfPlaced(groups[0], Ranked(groups[1..]));
    }
  }

  lemma {:induction false} SumSplits(groups: seq<Counted>, n: nat)
    requires n <= |groups|
    ensures Sum(groups) == Sum(groups[..n]) + Sum(groups[n..])
  {
    if n > 0 {
      SumSplits(groups[1..], n - 1);
      assert groups[..n][1..] == groups[1..][..n - 1];
    }
  }

  lemma RankedKeepsGroups(groups: seq<Counted>, g: Counted)
    ensures g in Ranked(groups) <==> g in groups
  {
    assert g in multiset(Ranked(groups)) <==> g in Ranked(groups);
    assert g in multiset(groups) <==> g in groups;
  }

  lemma {:induction false} CountOfMember(groups: seq<Counted>, i: nat)
    requires WellCounted(groups) && i < |groups|
    ensures GroupCount(groups, groups[i].key) == groups[i].count
  {
    if i > 0 {
      CountOfMember(groups[1..], i - 1);
    }
  }
}
