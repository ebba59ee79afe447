/** What the tables of a recording always satisfy, and the changes to them that keep it so. */
module InspectionTables {
  import opened Wrappers
  import opened Utf16
  import opened CallStackPublisher
  import opened StackTally
  import opened ConnectionInspection

  function PageRequests(tracked: seq<TrackedUrl>, n: nat): nat
    requires n <= |tracked|
  {
    if n == 0 then 0 else PageRequests(tracked, n - 1) + tracked[n - 1].pageRequests
  }

  function Kept(tracked: seq<TrackedUrl>, n: nat): nat
    requires n <= |tracked|
  {
    if n == 0 then 0 else Kept(tracked, n - 1) + |tracked[n - 1].observations|
  }

  predicate Within(limit: Option<nat>, used: nat) {
    limit.None? || used <= limit.value
  }

  /** A stack kept under its own key, of the shape a stack publishes. */
  ghost predicate IsKeptStack(key: JsString, stack: Stack, red: Redaction) {
    && GroupKey(stack) == key
    && 1 <= |stack.hosts| <= MAX_GROUP_HOSTS && NoHostFollowsItself(stack.hosts)
    && |stack.scripts| <= MAX_GROUP_SCRIPTS && Distinct(stack.scripts)
    && (forall h :: h in stack.hosts ==> exists url :: red.host(url) == h)
    && (forall s :: s in stack.scripts ==> red.isAddress(s))
  }

  ghost predicate StacksKept(tracked: seq<TrackedUrl>, stacks: map<JsString, Stack>) {
    forall i, j :: 0 <= i < |tracked| && 0 <= j < |tracked[i].observations| && tracked[i].observations[j].Group? ==>
      tracked[i].observations[j].key in stacks
  }

  ghost predicate Inv(r: Recorder, x: Inspection) {
    Consistent(r, x)
  }

  ghost predicate Consistent(r: Recorder, x: Inspection) {
    && r.matched == r.untracked + PageRequests(r.tracked, |r.tracked|)
    && r.kept == Kept(r.tracked, |r.tracked|)
    && Within(x.limits.tracked, |r.tracked|) && Within(x.limits.observations, r.kept) && Within(x.limits.codes, |r.codes|)
    && (forall i, j :: 0 <= i < j < |r.tracked| ==> r.tracked[i].key != r.tracked[j].key)
    && StacksKept(r.tracked, r.stacks)
    && forall key :: key in r.stacks ==> IsKeptStack(key, r.stacks[key], x.red)
  }

  lemma {:induction false} SumsOfUpdated(tracked: seq<TrackedUrl>, n: nat, i: nat, entry: TrackedUrl)
    requires n <= |tracked| && i < |tracked|
    ensures PageRequests(tracked[i := entry], n) ==
      PageRequests(tracked, n) + if i < n then entry.pageRequests - tracked[i].pageRequests else 0
    ensures Kept(tracked[i := entry], n) ==
      Kept(tracked, n) + if i < n then |entry.observations| - |tracked[i].observations| else 0
  {
    if n > 0 {
      SumsOfUpdated(tracked, n - 1, i, entry);
    }
  }

  lemma {:induction false} SumsOfAppended(tracked: seq<TrackedUrl>, n: nat, more: seq<TrackedUrl>)
    requires n <= |tracked|
    ensures PageRequests(tracked + more, n) == PageRequests(tracked, n) && Kept(tracked + more, n) == Kept(tracked, n)
  {
    if n > 0 {
      SumsOfAppended(tracked, n - 1, more);
    }
  }

  lemma WithEntryKeeps(r: Recorder, key: JsString, x: Inspection)
    requires Inv(r, x) && WithEntry(r.tracked, key, x.limits).Some?
    ensures Inv(r.(tracked := WithEntry(r.tracked, key, x.limits).value), x)
  {
    if IndexOf(r.tracked, key) == |r.tracked| {
      var fresh_ := TrackedUrl(key, 0, [], 0);
      var tracked := r.tracked + [fresh_];
      SumsOfAppended(r.tracked, |r.tracked|, [fresh_]);
      assert PageRequests(tracked, |tracked|) == PageRequests(tracked, |r.tracked|);
      assert Kept(tracked, |tracked|) == Kept(tracked, |r.tracked|);
    }
  }

  lemma PublishedIsKept(frames: seq<JsString>, code: set<JsString>, red: Redaction)
    requires Published(frames, code, red).Some?
    ensures IsKeptStack(GroupKey(Published(frames, code, red).value), Published(frames, code, red).value, red)
  {
    PublishedShape(frames, code, red);
  }

  /** Replacing one entry by one with the same key and page requests. */
  lemma ReplacedKeepsInv(r: Recorder, i: nat, entry: TrackedUrl, kept: nat, stacks: map<JsString, Stack>, x: Inspection)
    requires Inv(r, x) && i < |r.tracked|
    requires entry.key == r.tracked[i].key && entry.pageRequests == r.tracked[i].pageRequests
    requires kept == r.kept + |entry.observations| - |r.tracked[i].observations| && Within(x.limits.observations, kept)
    requires forall key :: key in r.stacks ==> key in stacks
    requires forall key :: key in stacks ==> IsKeptStack(key, stacks[key], x.red)
    requires forall j :: 0 <= j < |entry.observations| && entry.observations[j].Group? ==> entry.observations[j].key in stacks
    ensures Inv(r.(tracked := r.tracked[i := entry], kept := kept, stacks := stacks), x)
  {
    SumsOfUpdated(r.tracked, |r.tracked|, i, entry);
  }

  function StacksAfter(stacks: map<JsString, Stack>, c: Categorized): map<JsString, Stack> {
    if c.stack.Some? && c.category.Group? && c.category.key !in stacks then stacks[c.category.key := c.stack.value] else stacks
  }

  lemma CategorizedStackIsKept(stacks: map<JsString, Stack>, o: Observed, code: set<JsString>, overflowed: bool, red: Redaction)
    requires forall key :: key in stacks ==> IsKeptStack(key, stacks[key], red)
    ensures var c := Categorize(o, code, overflowed, red);
      && (forall key :: key in StacksAfter(stacks, c) ==> IsKeptStack(key, StacksAfter(stacks, c)[key], red))
      && (forall key :: key in stacks ==> key in StacksAfter(stacks, c))
      && (c.category.Group? ==> c.category.key in StacksAfter(stacks, c))
  {
    var c := Categorize(o, code, overflowed, red);
    if c.stack.Some? {
      PublishedIsKept(StackFrameUrls(o.frames.value), code, red);
    }
  }

  lemma KeptKeepsInv(r: Recorder, i: nat, c: Categorized, x: Inspection)
    requires Inv(r, x) && i < |r.tracked| && HasRoom(x.limits.observations, r.kept)
    requires forall key :: key in StacksAfter(r.stacks, c) ==> IsKeptStack(key, StacksAfter(r.stacks, c)[key], x.red)
    requires c.category.Group? ==> c.category.key in StacksAfter(r.stacks, c)
    ensures var entry := r.tracked[i].(observations := r.tracked[i].observations + [c.category]);
      Inv(r.(tracked := r.tracked[i := entry], kept := r.kept + 1, stacks := StacksAfter(r.stacks, c)), x)
  {
    var entry := r.tracked[i].(observations := r.tracked[i].observations + [c.category]);
    ReplacedKeepsInv(r, i, entry, r.kept + 1, StacksAfter(r.stacks, c), x);
  }

  lemma ObservationKeepsInv(r: Recorder, i: nat, o: Observed, x: Inspection)
    requires Inv(r, x) && i < |r.tracked| && HasRoom(x.limits.observations, r.kept)
    ensures var c := Categorize(o, r.codes, r.overflowed, x.red);
      var entry := r.tracked[i].(observations := r.tracked[i].observations + [c.category]);
      Inv(r.(tracked := r.tracked[i := entry], kept := r.kept + 1, stacks := StacksAfter(r.stacks, c)), x)
  {
    CategorizedStackIsKept(r.stacks, o, r.codes, r.overflowed, x.red);
    KeptKeepsInv(r, i, Categorize(o, r.codes, r.overflowed, x.red), x);
  }

  lemma OneMoreDropped(r: Recorder, i: nat, x: Inspection)
    requires Inv(r, x) && i < |r.tracked|
    ensures Inv(r.(tracked := r.tracked[i := r.tracked[i].(dropped := r.tracked[i].dropped + 1)]), x)
  {
    ReplacedKeepsInv(r, i, r.tracked[i].(dropped := r.tracked[i].dropped + 1), r.kept, r.stacks, x);
  }

  lemma OneMorePageRequest(r: Recorder, i: nat, x: Inspection)
    requires Inv(r, x) && i < |r.tracked|
    ensures Inv(r.(matched := r.matched + 1, tracked := r.tracked[i := r.tracked[i].(pageRequests := r.tracked[i].pageRequests + 1)]), x)
  {
    SumsOfUpdated(r.tracked, |r.tracked|, i, r.tracked[i].(pageRequests := r.tracked[i].pageRequests + 1));
  }

  lemma OneMoreUntracked(r: Recorder, x: Inspection)
    requires Inv(r, x)
    ensures Inv(r.(matched := r.matched + 1, untracked := r.untracked + 1), x)
  {
  }

  lemma CodeKeepsInv(r: Recorder, key: JsString, x: Inspection)
    requires Inv(r, x)
    ensures Inv(AfterCode(r, key, x), x)
  {
  }

  lemma FlagsKeepInv(r: Recorder, frozen: bool, broken: bool, x: Inspection)
    requires Inv(r, x)
    ensures Inv(r.(frozen := frozen, broken := broken), x)
  {
  }
}
