/**
 The recorder of one inspection: two event streams, joined per URL under bounds, and the public
 evidence built from them.
 */
module ConnectionInspection {
  import opened Wrappers
  import opened Utf16
  import opened CallStackPublisher
  import opened StackTally
  import opened StackRanking
  import E = InspectionEvidence

  /** None is no limit. */
  datatype Limits = Limits(tracked: Option<nat>, observations: Option<nat>, codes: Option<nat>, groups: Option<nat>)

  const INSPECTION_LIMITS := Limits(Some(2000), Some(2000), Some(4000), Some(E.MAX_GROUPS))
  const UNLIMITED := Limits(None, None, None, None)
  const MAX_MATCH_CACHE_ENTRIES := 8000

  predicate HasRoom(limit: Option<nat>, used: nat) {
    limit.None? || used < limit.value
  }

  datatype TrackedUrl = TrackedUrl(key: JsString, pageRequests: nat, observations: seq<Category>, dropped: nat)

  /** `tracked` is in insertion order. */
  datatype Recorder = Recorder(frozen: bool, broken: bool, matched: nat, untracked: nat, kept: nat, tracked: seq<TrackedUrl>,
                               codes: set<JsString>, overflowed: bool, stacks: map<JsString, Stack>)

  const START := Recorder(false, false, 0, 0, 0, [], {}, false, map[])

  /** `Session(None)` is a payload that names no request, or a preflight. `Failure` is anything that throws while recording. */
  datatype Event = PageRequest(url: JsString) | Session(observed: Option<Observed>) | Failure | Freeze

  datatype Inspection = Inspection(address: JsString, limits: Limits, red: Redaction)

  // ---- One event ----

  function IndexOf(tracked: seq<TrackedUrl>, key: JsString): (i: nat)
    ensures i <= |tracked| && (i < |tracked| ==> tracked[i].key == key)
    ensures forall j :: 0 <= j < i ==> tracked[j].key != key
  {
    if tracked == [] || tracked[0].key == key then 0
    else
      var i := IndexOf(tracked[1..], key);
      assert forall j :: 0 < j < i + 1 ==> tracked[j] == tracked[1..][j - 1];
      i + 1
  }

  /** The table with an entry for `key` at `IndexOf`, or None when the bound keeps it out. */
  function WithEntry(tracked: seq<TrackedUrl>, key: JsString, limits: Limits): (r: Option<seq<TrackedUrl>>)
    ensures r.Some? ==> IndexOf(tracked, key) < |r.value| && r.value[IndexOf(tracked, key)].key == key
  {
    if IndexOf(tracked, key) < |tracked| then Some(tracked)
    else if HasRoom(limits.tracked, |tracked|) then Some(tracked + [TrackedUrl(key, 0, [], 0)])
    else None
  }

  function Requested(r: Recorder, key: JsString, limits: Limits): Recorder {
    var i := IndexOf(r.tracked, key);
    match WithEntry(r.tracked, key, limits)
    case None => r.(matched := r.matched + 1, untracked := r.untracked + 1)
    case Some(tracked) =>
      r.(matched := r.matched + 1, tracked := tracked[i := tracked[i].(pageRequests := tracked[i].pageRequests + 1)])
  }

  function AfterPageRequest(r: Recorder, url: JsString, x: Inspection): Recorder {
    if x.red.url(url) != x.address then r else Requested(r, HeldKey(url, x.red), x.limits)
  }

  function AfterCode(r: Recorder, key: JsString, x: Inspection): Recorder {
    if key in r.codes then r
    else if !HasRoom(x.limits.codes, |r.codes|) then r.(overflowed := true)
    else r.(codes := r.codes + {key})
  }

  function AfterMatching(r: Recorder, o: Observed, x: Inspection): Recorder {
    var key := HeldKey(o.rawUrl, x.red);
    var i := IndexOf(r.tracked, key);
    match WithEntry(r.tracked, key, x.limits)
    case None => r
    case Some(tracked) =>
      if !HasRoom(x.limits.observations, r.kept) then
        r.(tracked := tracked[i := tracked[i].(dropped := tracked[i].dropped + 1)])
      else
        var c := Categorize(o, r.codes, r.overflowed, x.red);
        r.(kept := r.kept + 1,
           tracked := tracked[i := tracked[i].(observations := tracked[i].observations + [c.category])],
           stacks := if c.stack.Some? && c.category.Group? && c.category.key !in r.stacks
                     then r.stacks[c.category.key := c.stack.value] else r.stacks)
  }

  function AfterSession(r: Recorder, o: Observed, x: Inspection): Recorder {
    var noted := if o.code then AfterCode(r, HeldKey(o.rawUrl, x.red), x) else r;
    if x.red.url(o.rawUrl) != x.address then noted else AfterMatching(noted, o, x)
  }

  function Step(r: Recorder, e: Event, x: Inspection): Recorder {
    if e == Freeze then r.(frozen := true)
    else if r.frozen || r.broken then r
    else
      match e
      case Failure => r.(broken := true)
      case PageRequest(url) => AfterPageRequest(r, url, x)
      case Session(None) => r
      case Session(Some(o)) => AfterSession(r, o, x)
      case Freeze => r
  }

  function Run(events: seq<Event>, x: Inspection): Recorder
    decreases |events|
  {
    if events == [] then START else Step(Run(events[..|events| - 1], x), events[|events| - 1], x)
  }

  // ---- The evidence ----

  function Everything(i: nat): bool { true }

  function TallyOf(tracked: seq<TrackedUrl>, n: nat, untracked: nat): Counts
    requires n <= |tracked|
  {
    if n == 0 then ZERO.(notListed := untracked)
    else Joined(TallyOf(tracked, n - 1, untracked), tracked[n - 1].pageRequests, tracked[n - 1].observations,
                tracked[n - 1].dropped, Everything)
  }

  function FinalTally(r: Recorder): Counts {
    TallyOf(r.tracked, |r.tracked|, r.untracked)
  }

  /** None when a group lost its stack. */
  function RowsOf(groups: seq<Counted>, stacks: map<JsString, Stack>): (r: Option<seq<E.Row>>)
    ensures r.Some? <==> forall i :: 0 <= i < |groups| ==> groups[i].key in stacks
    ensures r.Some? ==> |r.value| == |groups|
    ensures r.Some? ==> forall i :: 0 <= i < |groups| ==> r.value[i] == E.Row(groups[i].count, stacks[groups[i].key])
  {
    if groups == [] then Some([])
    else if groups[0].key !in stacks then None
    else
      match RowsOf(groups[1..], stacks)
      case None => None
      case Some(rows) => Some([E.Row(groups[0].count, stacks[groups[0].key])] + rows)
  }

  function Listed(limits: Limits, n: nat): (k: nat)
    ensures k <= n
  {
    if limits.groups.None? || n <= limits.groups.value then n else limits.groups.value
  }

  /** The evidence of a tally, with the first rows of its ranking listed. */
  function Assemble(matched: nat, t: Counts, stacks: map<JsString, Stack>, x: Inspection): (r: Option<E.Evidence>)
    ensures r.Some? ==> r.value.matched == matched && r.value.redirected == t.redirected
    ensures r.Some? ==> r.value.withoutStack == t.withoutStack && r.value.withoutNamedScript == t.withoutNamedScript
    ensures r.Some? ==> r.value.unobserved == t.unobserved && r.value.notListed >= t.notListed
  {
    var ranked := Ranked(t.groups);
    var k := Listed(x.limits, |ranked|);
    match RowsOf(ranked, stacks)
    case None => None
    case Some(rows) =>
      Some(E.Evidence(x.address, matched, rows[..k], t.redirected, t.withoutStack, t.withoutNamedScript,
                      t.notListed + Sum(ranked[k..]), t.unobserved))
  }

  function BuildEvidence(r: Recorder, x: Inspection): (e: Option<E.Evidence>)
    ensures e.Some? ==> e.value.matched == r.matched && e.value.redirected == FinalTally(r).redirected
    ensures e.Some? ==> e.value.withoutStack == FinalTally(r).withoutStack
    ensures e.Some? ==> e.value.withoutNamedScript == FinalTally(r).withoutNamedScript
    ensures e.Some? ==> e.value.unobserved == FinalTally(r).unobserved && e.value.notListed >= FinalTally(r).notListed
  {
    Assemble(r.matched, FinalTally(r), r.stacks, x)
  }

  function EvidenceOf(r: Recorder, x: Inspection): Option<E.Evidence> {
    if r.broken then None
    else
      match BuildEvidence(r, x)
      case None => None
      case Some(e) => if E.IsConnectionInspectionEvidence(E.Encode(e), x.red.isAddress) then Some(e) else None
  }

  // ---- The recorder object ----

  class ConnectionInspectionRecorder {
    const inspection: Inspection
    var frozen: bool
    var broken: bool
    var matched: nat
    var untrackedPageRequests: nat
    var keptObservations: nat
    var tracked: seq<TrackedUrl>
    var codeUrls: set<JsString>
    var overflowed: bool
    var stacks: map<JsString, Stack>
    var matchCache: map<JsString, bool>

    constructor (inspection: Inspection)
      ensures this.inspection == inspection && CacheHolds() && State() == START
    {
      this.inspection := inspection;
      frozen, broken, matched, untrackedPageRequests, keptObservations := false, false, 0, 0, 0;
      tracked, codeUrls, overflowed, stacks, matchCache := [], {}, false, map[], map[];
    }

    function State(): Recorder
      reads this
    {
      Recorder(frozen, broken, matched, untrackedPageRequests, keptObservations, tracked, codeUrls, overflowed, stacks)
    }

    ghost predicate CacheHolds()
      reads this
    {
      && |matchCache| <= MAX_MATCH_CACHE_ENTRIES
      && forall url :: url in matchCache ==> matchCache[url] == (inspection.red.url(url) == inspection.address)
    }

    /** The cache changes no answer. */
    method Matches(rawUrl: JsString) returns (m: bool)
      requires CacheHolds()
      modifies this`matchCache
      ensures CacheHolds() && m == (inspection.red.url(rawUrl) == inspection.address)
    {
      if rawUrl in matchCache {
        return matchCache[rawUrl];
      }
      m := inspection.red.url(rawUrl) == inspection.address;
      if |rawUrl| <= MAX_HELD_URL_CHARS && |matchCache| < MAX_MATCH_CACHE_ENTRIES {
        matchCache := matchCache[rawUrl := m];
      }
    }

    method TrackedEntry(key: JsString) returns (found: bool, i: nat)
      modifies this`tracked
      ensures i == IndexOf(old(tracked), key)
      ensures found == WithEntry(old(tracked), key, inspection.limits).Some?
      ensures tracked == if found then WithEntry(old(tracked), key, inspection.limits).value else old(tracked)
    {
      i := 0;
      while i < |tracked| && tracked[i].key != key
        invariant i <= |tracked| && forall j :: 0 <= j < i ==> tracked[j].key != key
      {
        i := i + 1;
      }
      assert i == IndexOf(tracked, key);
      found := true;
      if i == |tracked| {
        if !HasRoom(inspection.limits.tracked, |tracked|) {
          return false, i;
        }
        tracked := tracked + [TrackedUrl(key, 0, [], 0)];
      }
    }

    method NotePageRequest(url: JsString)
      requires CacheHolds()
      modifies this
      ensures CacheHolds() && State() == Step(old(State()), PageRequest(url), inspection)
    {
      if frozen || broken {
        return;
      }
      var m := Matches(url);
      if !m {
        return;
      }
      CountPageRequest(HeldKey(url, inspection.red));
    }

    method CountPageRequest(key: JsString)
      modifies this`matched, this`tracked, this`untrackedPageRequests
      ensures State() == Requested(old(State()), key, inspection.limits)
    {
      matched := matched + 1;
      var found, i := TrackedEntry(key);
      if found {
        tracked := tracked[i := tracked[i].(pageRequests := tracked[i].pageRequests + 1)];
      } else {
        untrackedPageRequests := untrackedPageRequests + 1;
      }
    }

    method NoteCode(key: JsString)
      modifies this`codeUrls, this`overflowed
      ensures State() == AfterCode(old(State()), key, inspection)
    {
      if key in codeUrls {
        return;
      }
      if !HasRoom(inspection.limits.codes, |codeUrls|) {
        overflowed := true;
        return;
      }
      codeUrls := codeUrls + {key};
    }

    method Observe(observed: Option<Observed>)
      requires CacheHolds()
      modifies this
      ensures CacheHolds() && State() == Step(old(State()), Session(observed), inspection)
    {
      if frozen || broken || observed.None? {
        return;
      }
      var o := observed.value;
      var key := HeldKey(o.rawUrl, inspection.red);
      if o.code {
        NoteCode(key);
      }
      var m := Matches(o.rawUrl);
      if !m {
        return;
      }
      KeepObservation(o, key);
    }

    method KeepObservation(o: Observed, key: JsString)
      requires key == HeldKey(o.rawUrl, inspection.red)
      modifies this`tracked, this`keptObservations, this`stacks
      ensures State() == AfterMatching(old(State()), o, inspection)
    {
      var found, i := TrackedEntry(key);
      if !found {
        return;
      }
      if !HasRoom(inspection.limits.observations, keptObservations) {
        tracked := tracked[i := tracked[i].(dropped := tracked[i].dropped + 1)];
        return;
      }
      keptObservations := keptObservations + 1;
      var c := CategorizeObservation(o);
      tracked := tracked[i := tracked[i].(observations := tracked[i].observations + [c])];
    }

    method CategorizeObservation(o: Observed) returns (category: Category)
      modifies this`stacks
      ensures var c := Categorize(o, codeUrls, overflowed, inspection.red);
        && category == c.category
        && stacks == if c.stack.Some? && c.category.Group? && c.category.key !in old(stacks)
                     then old(stacks)[c.category.key := c.stack.value] else old(stacks)
    {
      if o.redirected {
        return Redirected;
      }
      if o.frames.None? {
        return WithoutStack;
      }
      if overflowed {
        return NotListed;
      }
      var published := PublishedStack(StackFrameUrls(o.frames.value), codeUrls, inspection.red);
      if published.None? {
        return WithoutNamedScript;
      }
      var key := GroupKey(published.value);
      if key !in stacks {
        stacks := stacks[key := published.value];
      }
      category := Group(key);
    }

    /** Whatever threw inside `NotePageRequest` or `Observe`. */
    method Fail()
      modifies this`broken
      ensures State() == Step(old(State()), Failure, inspection)
    {
      if frozen || broken {
        return;
      }
      broken := true;
    }

    method FreezeRecording()
      modifies this`frozen
      ensures State() == Step(old(State()), Freeze, inspection)
    {
      frozen := true;
    }

    method JoinAll() returns (tally: Tally)
      ensures fresh(tally) && tally.State() == FinalTally(State())
    {
      tally := new Tally();
      tally.notListed := untrackedPageRequests;
      for i := 0 to |tracked|
        invariant fresh(tally) && tally.State() == TallyOf(tracked, i, untrackedPageRequests)
      {
        tally.JoinObservations(tracked[i].pageRequests, tracked[i].observations, tracked[i].dropped, Everything);
      }
    }

    method AssembleFrom(tally: Tally) returns (r: Option<E.Evidence>)
      ensures r == Assemble(matched, tally.State(), stacks, inspection)
    {
      var ranked := Ranked(tally.groupCounts);
      var rows := RowsOf(ranked, stacks);
      if rows.None? {
        return None;
      }
      var k := Listed(inspection.limits, |ranked|);
      var notListed := NotListedBeyond(ranked, k, tally.notListed);
      r := Some(E.Evidence(inspection.address, matched, rows.value[..k], tally.redirected, tally.withoutStack,
                           tally.withoutNamedScript, notListed, tally.unobserved));
    }

    method BuildFromStacks() returns (r: Option<E.Evidence>)
      ensures r == BuildEvidence(State(), inspection)
    {
      var tally := JoinAll();
      r := AssembleFrom(tally);
    }

    method Evidence() returns (r: Option<E.Evidence>)
      modifies this`frozen
      ensures State() == Step(old(State()), Freeze, inspection)
      ensures r == EvidenceOf(old(State()), inspection)
    {
      FreezeRecording();
      if broken {
        return None;
      }
      FrozenChangesNothing(old(State()), State(), inspection);
      var e := BuildFromStacks();
      r := if e.Some? && E.IsConnectionInspectionEvidence(E.Encode(e.value), inspection.red.isAddress) then e else None;
    }
  }

  method NotListedBeyond(ranked: seq<Counted>, k: nat, start: nat) returns (notListed: nat)
    requires k <= |ranked|
    ensures notListed == start + Sum(ranked[k..])
  {
    notListed := start;
    for i := k to |ranked|
      invariant notListed + Sum(ranked[i..]) == start + Sum(ranked[k..])
    {
      notListed := notListed + ranked[i].count;
      assert ranked[i..][1..] == ranked[i + 1..];
    }
    assert ranked[|ranked|..] == [];
  }

  lemma FrozenChangesNothing(a: Recorder, b: Recorder, x: Inspection)
    requires b == a.(frozen := b.frozen)
    ensures BuildEvidence(a, x) == BuildEvidence(b, x)
  {
  }
}
