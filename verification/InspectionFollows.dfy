/** A recording under bounds beside the same recording without them: what it means that one follows the other. */
module InspectionFollows {
  import opened Wrappers
  import opened Utf16
  import opened CallStackPublisher
  import opened StackTally
  import opened ConnectionInspection

  function Unbounded(x: Inspection): Inspection {
    x.(limits := UNLIMITED)
  }

  // ---- The two recordings side by side ----

  predicate SameOrUnlisted(b: Category, u: Category) {
    b == u || b == NotListed
  }

  /** The bounded entry keeps a beginning of the observations and knows how many it dropped. */
  ghost predicate EntryFollows(b: TrackedUrl, u: TrackedUrl) {
    && b.key == u.key && b.pageRequests == u.pageRequests && u.dropped == 0
    && |b.observations| + b.dropped == |u.observations|
    && forall j :: 0 <= j < |b.observations| ==> SameOrUnlisted(b.observations[j], u.observations[j])
  }

  ghost predicate TableFollows(b: seq<TrackedUrl>, u: seq<TrackedUrl>) {
    && |b| <= |u|
    && (forall i :: 0 <= i < |b| ==> EntryFollows(b[i], u[i]))
    && (forall i :: |b| <= i < |u| ==> u[i].dropped == 0)
  }

  ghost predicate NothingDropped(tracked: seq<TrackedUrl>) {
    forall i :: 0 <= i < |tracked| ==> tracked[i].dropped == 0
  }

  ghost predicate Follows(b: Recorder, u: Recorder, x: Inspection) {
    FollowsUnder(b, u, x)
  }

  ghost predicate FollowsUnder(b: Recorder, u: Recorder, x: Inspection) {
    && b.frozen == u.frozen && b.broken == u.broken && b.matched == u.matched
    && u.untracked == 0 && !u.overflowed
    && (!b.overflowed ==> b.codes == u.codes) && b.codes <= u.codes
    && TableFollows(b.tracked, u.tracked)
    && (|b.tracked| < |u.tracked| ==> !HasRoom(x.limits.tracked, |b.tracked|))
    && (HasRoom(x.limits.observations, b.kept) ==> NothingDropped(b.tracked))
  }

  /** A key has the same place in both tables, or the bounded one is full and does not have it. */
  lemma SamePlace(b: seq<TrackedUrl>, u: seq<TrackedUrl>, key: JsString)
    requires TableFollows(b, u)
    ensures IndexOf(b, key) < |b| ==> IndexOf(u, key) == IndexOf(b, key)
    ensures IndexOf(b, key) == |b| ==> IndexOf(u, key) >= |b|
  {
    var i := IndexOf(b, key);
    assert forall j :: 0 <= j < i ==> u[j].key == b[j].key;
    if i < |b| {
      assert u[i].key == key;
    }
  }

  lemma EnteredFollows(b: seq<TrackedUrl>, u: seq<TrackedUrl>, key: JsString, x: Inspection)
    requires TableFollows(b, u) && (|b| < |u| ==> !HasRoom(x.limits.tracked, |b|))
    ensures var ub := WithEntry(u, key, UNLIMITED).value;
      var eb := WithEntry(b, key, x.limits);
      && WithEntry(u, key, UNLIMITED).Some?
      && (eb.Some? ==> TableFollows(eb.value, ub) && IndexOf(b, key) == IndexOf(u, key))
      && (eb.Some? ==> (|eb.value| < |ub| ==> !HasRoom(x.limits.tracked, |eb.value|)))
      && (eb.None? ==> TableFollows(b, ub) && IndexOf(u, key) >= |b| && !HasRoom(x.limits.tracked, |b|))
      && (eb.Some? && NothingDropped(b) ==> NothingDropped(eb.value))
  {
    SamePlace(b, u, key);
  }

  lemma RequestedFollows(b: seq<TrackedUrl>, u: seq<TrackedUrl>, i: nat)
    requires TableFollows(b, u) && i < |b|
    ensures TableFollows(b[i := b[i].(pageRequests := b[i].pageRequests + 1)],
                         u[i := u[i].(pageRequests := u[i].pageRequests + 1)])
  {
  }

  /** Tables that follow make recordings that follow. */
  function WithRequest(tracked: seq<TrackedUrl>, i: nat): seq<TrackedUrl>
    requires i < |tracked|
  {
    tracked[i := tracked[i].(pageRequests := tracked[i].pageRequests + 1)]
  }

  lemma RequestedTables(b: seq<TrackedUrl>, u: seq<TrackedUrl>, key: JsString, x: Inspection)
    requires TableFollows(b, u) && (|b| < |u| ==> !HasRoom(x.limits.tracked, |b|))
    requires WithEntry(b, key, x.limits).Some?
    ensures WithEntry(u, key, UNLIMITED).Some? && IndexOf(b, key) == IndexOf(u, key)
    ensures var tb := WithRequest(WithEntry(b, key, x.limits).value, IndexOf(u, key));
      var tu := WithRequest(WithEntry(u, key, UNLIMITED).value, IndexOf(u, key));
      TableFollows(tb, tu) && (|tb| < |tu| ==> !HasRoom(x.limits.tracked, |tb|)) && (NothingDropped(b) ==> NothingDropped(tb))
  {
    EnteredFollows(b, u, key, x);
    RequestedFollows(WithEntry(b, key, x.limits).value, WithEntry(u, key, UNLIMITED).value, IndexOf(u, key));
  }

  lemma FollowsWith(b: Recorder, u: Recorder, tb: seq<TrackedUrl>, tu: seq<TrackedUrl>, x: Inspection)
    requires Follows(b, u, x) && TableFollows(tb, tu)
    requires |tb| < |tu| ==> !HasRoom(x.limits.tracked, |tb|)
    requires HasRoom(x.limits.observations, b.kept) ==> NothingDropped(tb)
    ensures Follows(b.(tracked := tb), u.(tracked := tu), x)
  {
  }

  lemma CountedFollows(b: Recorder, u: Recorder, untracked: nat, x: Inspection)
    requires Follows(b, u, x)
    ensures Follows(b.(matched := b.matched + 1, untracked := untracked), u.(matched := u.matched + 1), x)
  {
  }

  lemma CodesFollow(b: Recorder, u: Recorder, key: JsString, x: Inspection)
    requires !u.overflowed && (!b.overflowed ==> b.codes == u.codes) && b.codes <= u.codes
    ensures var rb, ru := AfterCode(b, key, x), AfterCode(u, key, Unbounded(x));
      !ru.overflowed && (!rb.overflowed ==> rb.codes == ru.codes) && rb.codes <= ru.codes
  {
    assert AfterCode(u, key, Unbounded(x)).codes == u.codes + {key};
  }

  lemma CodeChangesOnlyCodes(r: Recorder, key: JsString, x: Inspection)
    ensures AfterCode(r, key, x) == r.(codes := AfterCode(r, key, x).codes, overflowed := AfterCode(r, key, x).overflowed)
  {
  }

  lemma CodeFollows(b: Recorder, u: Recorder, key: JsString, x: Inspection)
    requires Follows(b, u, x)
    ensures Follows(AfterCode(b, key, x), AfterCode(u, key, Unbounded(x)), x)
  {
    CodesFollow(b, u, key, x);
    CodeChangesOnlyCodes(b, key, x);
    CodeChangesOnlyCodes(u, key, Unbounded(x));
  }

  lemma RequestFollows(b: Recorder, u: Recorder, key: JsString, x: Inspection)
    requires Follows(b, u, x) && WithEntry(b.tracked, key, x.limits).Some?
    ensures WithEntry(u.tracked, key, UNLIMITED).Some? && IndexOf(b.tracked, key) == IndexOf(u.tracked, key)
    ensures var i := IndexOf(u.tracked, key);
      Follows(b.(matched := b.matched + 1, tracked := WithRequest(WithEntry(b.tracked, key, x.limits).value, i)),
              u.(matched := u.matched + 1, tracked := WithRequest(WithEntry(u.tracked, key, UNLIMITED).value, i)), x)
  {
    RequestedTables(b.tracked, u.tracked, key, x);
  }

  lemma RequestedIs(r: Recorder, key: JsString, limits: Limits)
    requires WithEntry(r.tracked, key, limits).Some?
    ensures Requested(r, key, limits) ==
      r.(matched := r.matched + 1, tracked := WithRequest(WithEntry(r.tracked, key, limits).value, IndexOf(r.tracked, key)))
  {
  }

  lemma CategoriesFollow(b: Recorder, u: Recorder, o: Observed, x: Inspection)
    requires Follows(b, u, x)
    ensures SameOrUnlisted(Categorize(o, b.codes, b.overflowed, x.red).category,
                           Categorize(o, u.codes, u.overflowed, x.red).category)
  {
  }

  lemma PushedFollows(b: seq<TrackedUrl>, u: seq<TrackedUrl>, i: nat, cb: Category, cu: Category)
    requires TableFollows(b, u) && i < |b| && b[i].dropped == 0 && SameOrUnlisted(cb, cu)
    ensures TableFollows(b[i := b[i].(observations := b[i].observations + [cb])],
                         u[i := u[i].(observations := u[i].observations + [cu])])
  {
  }

  lemma DroppedFollows(b: seq<TrackedUrl>, u: seq<TrackedUrl>, i: nat, cu: Category)
    requires TableFollows(b, u) && i < |b|
    ensures TableFollows(b[i := b[i].(dropped := b[i].dropped + 1)],
                         u[i := u[i].(observations := u[i].observations + [cu])])
  {
  }

  lemma UntrackedFollows(b: seq<TrackedUrl>, u: seq<TrackedUrl>, i: nat, entry: TrackedUrl)
    requires TableFollows(b, u) && |b| <= i < |u| && entry.dropped == 0
    ensures TableFollows(b, u[i := entry])
  {
  }
}
