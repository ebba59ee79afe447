/**
 Which recorded pairs of visits may carry a comparison: the strict gate, its temporal variant, the
 fingerprints and cohorts, and the decision built from them.

 Text handling (trimming, routes, origins, hosts, dates, the methodology token) and the digest are
 parameters. Reasons are constructors in place of sentences.
 */
module ComparisonGate {
  import opened Wrappers

  // ---- What a report records ----

  datatype Adblock = Adblock(active: bool, source: string, lists: real, fetchedAt: string)

  datatype Catalog = Catalog(source: string, version: string, region: Option<string>, entries: real,
                             curatedOverrides: Option<real>, license: string)

  datatype Viewport = Viewport(width: int, height: int, isMobile: bool)

  datatype Conditions = Conditions(
    automation: string, chromiumVersion: string, userAgent: string, timezone: string, locale: string, language: string,
    scannerEgress: string, scannerDisclosure: string, headless: bool, viewport: Viewport, adblock: Option<Adblock>,
    shieldsMode: Option<string>, consentMode: string, gpcEnabled: bool, trackerCatalog: Catalog,
    requestedUrl: string, finalUrl: string, scannedAt: string)

  /** The warnings that disqualify a visit by themselves. */
  datatype Defect =
    | SuspectedChallenge | SubjectUnverified | RequestCap | ResponseByteCap | UploadByteCap | WorkerCaptureLoss
    | InvalidUpstream | ProxyBudget | UnsettledRequests | ProbeCaptureLoss | ProbeNavigationStopped | ProbeRequestsOmitted
    | ProbePageLeft | LeftBeforeState | AuxiliaryBlocked | ConsentLeftSubject

  datatype ConsentClick = ConsentClick(mode: string, clicked: bool)

  datatype Visit = Visit(status: Option<int>, defects: seq<Defect>, firstPartyDomain: string, shieldsMeasured: bool,
                         consent: Option<ConsentClick>, conditions: Conditions)

  datatype Kind = Gpc | Shields | Consent | Temporal

  datatype Pair = Pair(kind: Kind, baseline: Visit, variant: Visit)

  datatype Arm = BaselineArm | VariantArm

  datatype Dimension =
    | BrowserVersion | UserAgent | Timezone | Locale | Language | Egress | ListSource | ListSnapshot

  datatype Reason =
    | ErrorStatus(arm: Arm) | NoStatus(arm: Arm) | HasDefect(arm: Arm, defect: Defect) | UnknownSubject(arm: Arm)
    | DifferentSites | DifferentRequests | DifferentEndings
    | DifferentDevices | DifferentPipelines | DifferentMethodologies | DifferentViewports | DifferentHeadless
    | Unrecorded(dimension: Dimension) | Different(dimension: Dimension)
    | OneEngineOnly | DifferentListCounts
    | UndeclaredGpc | UndeclaredConsent | UndeclaredBlocking
    | Unordered | NotOlder
    | SignalNotVaried | EngineNotRun | BaselineBlocked | ChoicesNotAttempted | ClickUnrecorded(arm: Arm) | NoActivation(arm: Arm)

  // ---- Parameters ----

  datatype Canonical =
    | EnvironmentOf(adblock: Option<(string, real, string)>, automation: string, browserVersion: string, egress: string,
                    headless: bool, language: string, locale: string, methodology: string, timezone: string, userAgent: string,
                    viewport: Viewport)
    | CohortOf(version: string, environment: string, consent: string, gpc: bool, shields: string, source: string,
               catalogVersion: string, region: string, entries: real, curatedOverrides: real, license: string)

  datatype Texts = Texts(
    trim: string -> string,
    saysUnknown: string -> bool,
    route: string -> string,
    origin: string -> Option<string>,
    unknownUrl: string -> bool,
    sameHosts: (string, string) -> bool,
    date: string -> Option<int>,
    methodology: string -> string,
    digest: Canonical -> string)

  const SNAPSHOT_OMITTED := "comparison-history-snapshot-omitted-v1"
  const CLASSIFICATION := "classification"
  const BLOCK_SIMULATION := "block-simulation"
  const ACCEPT_ALL := "accept-all"
  const REJECT_ALL := "reject-all"

  /** The unknown rule: empty or the literal "unknown" proves nothing. */
  function Known(value: string, x: Texts): Option<string> {
    var trimmed := x.trim(value);
    if trimmed == "" || x.saysUnknown(trimmed) then None else Some(trimmed)
  }

  predicate IsPositiveInteger(n: real) {
    n == n.Floor as real && n > 0.0
  }

  predicate IsCount(n: real) {
    n == n.Floor as real && n >= 0.0
  }

  predicate ActiveEngine(c: Conditions) {
    c.adblock.Some? && c.adblock.value.active
  }

  // ---- The strict gate ----

  function EnvironmentMismatch(d: Dimension, left: string, right: string, x: Texts): seq<Reason> {
    var a, b := Known(left, x), Known(right, x);
    if a.None? || b.None? then [Unrecorded(d)] else if a != b then [Different(d)] else []
  }

  function DefectReasons(arm: Arm, defects: seq<Defect>): seq<Reason> {
    if defects == [] then [] else [HasDefect(arm, defects[0])] + DefectReasons(arm, defects[1..])
  }

  function StatusReasons(arm: Arm, status: Option<int>): seq<Reason> {
    if status.None? then [NoStatus(arm)] else if status.value >= 400 then [ErrorStatus(arm)] else []
  }

  function ArmReasons(arm: Arm, v: Visit): seq<Reason> {
    StatusReasons(arm, v.status) + DefectReasons(arm, v.defects)
  }

  datatype SubjectFacts = SubjectFacts(hostsMatch: bool, baselineKnown: bool, variantKnown: bool, requestedMatch: bool,
                                       observedMatch: bool)

  function SubjectFactsOf(p: Pair, x: Texts): SubjectFacts {
    var b, v := p.baseline.conditions, p.variant.conditions;
    var bothRequested := !x.unknownUrl(b.requestedUrl) && !x.unknownUrl(v.requestedUrl);
    var bothFinal := !x.unknownUrl(b.finalUrl) && !x.unknownUrl(v.finalUrl);
    SubjectFacts(
      x.sameHosts(p.baseline.firstPartyDomain, p.variant.firstPartyDomain),
      !x.unknownUrl(b.requestedUrl) && !x.unknownUrl(b.finalUrl),
      !x.unknownUrl(v.requestedUrl) && !x.unknownUrl(v.finalUrl),
      bothRequested && x.route(b.requestedUrl) == x.route(v.requestedUrl),
      if p.kind == Consent then bothFinal && x.origin(b.finalUrl).Some? && x.origin(b.finalUrl) == x.origin(v.finalUrl)
      else bothFinal && x.route(b.finalUrl) == x.route(v.finalUrl))
  }

  predicate SubjectsMatch(p: Pair, x: Texts) {
    var f := SubjectFactsOf(p, x);
    f.hostsMatch && f.baselineKnown && f.variantKnown && f.requestedMatch && f.observedMatch
  }

  function SubjectReasons(p: Pair, x: Texts): seq<Reason> {
    var f := SubjectFactsOf(p, x);
    (if f.hostsMatch then [] else [DifferentSites]) +
    (if f.baselineKnown then [] else [UnknownSubject(BaselineArm)]) +
    (if f.variantKnown then [] else [UnknownSubject(VariantArm)])
  }

  function PipelineReasons(b: Conditions, v: Conditions, x: Texts): seq<Reason> {
    (if b.viewport.isMobile == v.viewport.isMobile then [] else [DifferentDevices]) +
    (if b.automation == v.automation then [] else [DifferentPipelines]) +
    (if x.methodology(b.scannerDisclosure) == x.methodology(v.scannerDisclosure) then [] else [DifferentMethodologies])
  }

  function EnvironmentReasons(b: Conditions, v: Conditions, x: Texts): seq<Reason> {
    (if b.viewport.width == v.viewport.width && b.viewport.height == v.viewport.height then [] else [DifferentViewports]) +
    EnvironmentMismatch(BrowserVersion, b.chromiumVersion, v.chromiumVersion, x) +
    EnvironmentMismatch(UserAgent, b.userAgent, v.userAgent, x) +
    EnvironmentMismatch(Timezone, b.timezone, v.timezone, x) +
    EnvironmentMismatch(Locale, b.locale, v.locale, x) +
    EnvironmentMismatch(Language, b.language, v.language, x) +
    EnvironmentMismatch(Egress, b.scannerEgress, v.scannerEgress, x) +
    (if b.headless == v.headless then [] else [DifferentHeadless])
  }

  function EngineReasons(b: Conditions, v: Conditions, x: Texts): seq<Reason> {
    if ActiveEngine(b) != ActiveEngine(v) then [OneEngineOnly]
    else if ActiveEngine(b) then
      EnvironmentMismatch(ListSource, b.adblock.value.source, v.adblock.value.source, x) +
      (if b.adblock.value.lists == v.adblock.value.lists then [] else [DifferentListCounts]) +
      EnvironmentMismatch(ListSnapshot, b.adblock.value.fetchedAt, v.adblock.value.fetchedAt, x)
    else []
  }

  /** Every experiment dimension other than the declared one must match. */
  function HeldConstantReasons(p: Pair): seq<Reason> {
    var b, v := p.baseline.conditions, p.variant.conditions;
    (if p.kind != Gpc && b.gpcEnabled != v.gpcEnabled then [UndeclaredGpc] else []) +
    (if p.kind != Consent && b.consentMode != v.consentMode then [UndeclaredConsent] else []) +
    (if p.kind != Shields && (ActiveEngine(b) != ActiveEngine(v) || b.shieldsMode != v.shieldsMode)
     then [UndeclaredBlocking] else [])
  }

  function OrderReasons(p: Pair, x: Texts): seq<Reason> {
    if p.kind != Temporal then []
    else
      var before, after := x.date(p.baseline.conditions.scannedAt), x.date(p.variant.conditions.scannedAt);
      if before.None? || after.None? then [Unordered] else if before.value >= after.value then [NotOlder] else []
  }

  function ClickReasons(arm: Arm, v: Visit, choice: string): seq<Reason> {
    if v.consent.None? || v.consent.value.mode != choice then [ClickUnrecorded(arm)]
    else if !v.consent.value.clicked then [NoActivation(arm)]
    else []
  }

  /** The declared experiment must have happened. */
  function DesignReasons(p: Pair): seq<Reason> {
    var b, v := p.baseline.conditions, p.variant.conditions;
    match p.kind
    case Gpc => if b.gpcEnabled || !v.gpcEnabled then [SignalNotVaried] else []
    case Shields =>
      if v.shieldsMode != Some(BLOCK_SIMULATION) || !ActiveEngine(v) then [EngineNotRun]
      else if b.shieldsMode == Some(BLOCK_SIMULATION) then [BaselineBlocked]
      else []
    case Consent =>
      if b.consentMode != ACCEPT_ALL || v.consentMode != REJECT_ALL then [ChoicesNotAttempted]
      else ClickReasons(BaselineArm, p.baseline, ACCEPT_ALL) + ClickReasons(VariantArm, p.variant, REJECT_ALL)
    case Temporal => []
  }

  function StrictReasons(p: Pair, x: Texts): seq<Reason> {
    var b, v, f := p.baseline.conditions, p.variant.conditions, SubjectFactsOf(p, x);
    ArmReasons(BaselineArm, p.baseline) + ArmReasons(VariantArm, p.variant) + SubjectReasons(p, x) +
    PipelineReasons(b, v, x) + (if f.requestedMatch then [] else [DifferentRequests]) + EnvironmentReasons(b, v, x) +
    EngineReasons(b, v, x) + (if f.observedMatch then [] else [DifferentEndings]) + HeldConstantReasons(p) +
    OrderReasons(p, x) + DesignReasons(p)
  }

  method ComparisonEligibility(p: Pair, x: Texts) returns (reasons: seq<Reason>)
    ensures reasons == StrictReasons(p, x)
  {
    var b, v, f := p.baseline.conditions, p.variant.conditions, SubjectFactsOf(p, x);
    var ofBaseline := CollectArmReasons(BaselineArm, p.baseline);
    var ofVariant := CollectArmReasons(VariantArm, p.variant);
    reasons := ofBaseline + ofVariant + SubjectReasons(p, x) + PipelineReasons(b, v, x);
    reasons := reasons + if f.requestedMatch then [] else [DifferentRequests];
    reasons := reasons + EnvironmentReasons(b, v, x) + EngineReasons(b, v, x);
    reasons := reasons + if f.observedMatch then [] else [DifferentEndings];
    reasons := reasons + HeldConstantReasons(p) + OrderReasons(p, x) + DesignReasons(p);
  }

  /** What one visit alone disqualifies the pair for. */
  method CollectArmReasons(arm: Arm, visit: Visit) returns (reasons: seq<Reason>)
    ensures reasons == ArmReasons(arm, visit)
  {
    reasons := StatusReasons(arm, visit.status);
    ghost var start := reasons;
    for i := 0 to |visit.defects|
      invariant reasons + DefectReasons(arm, visit.defects[i..]) == start + DefectReasons(arm, visit.defects)
    {
      assert visit.defects[i..] == [visit.defects[i]] + visit.defects[i + 1..];
      assert DefectReasons(arm, visit.defects[i..]) ==
        [HasDefect(arm, visit.defects[i])] + DefectReasons(arm, visit.defects[i + 1..]);
      reasons := reasons + [HasDefect(arm, visit.defects[i])];
    }
    assert visit.defects[|visit.defects|..] == [];
  }

  // ---- The temporal gate ----

  predicate PassiveSnapshotsMayDiffer(p: Pair, x: Texts) {
    var b, v := p.baseline.conditions, p.variant.conditions;
    && p.kind == Temporal
    && b.shieldsMode == Some(CLASSIFICATION) && v.shieldsMode == Some(CLASSIFICATION)
    && ActiveEngine(b) && ActiveEngine(v)
    && Known(b.adblock.value.source, x).Some? && Known(b.adblock.value.source, x) == Known(v.adblock.value.source, x)
    && Known(b.adblock.value.fetchedAt, x).Some? && Known(v.adblock.value.fetchedAt, x).Some?
    && x.date(Known(b.adblock.value.fetchedAt, x).value).Some? && x.date(Known(v.adblock.value.fetchedAt, x).value).Some?
    && IsPositiveInteger(b.adblock.value.lists) && b.adblock.value.lists == v.adblock.value.lists
  }

  function WithoutSnapshot(reasons: seq<Reason>): seq<Reason> {
    if reasons == [] then []
    else (if reasons[0] == Different(ListSnapshot) then [] else [reasons[0]]) + WithoutSnapshot(reasons[1..])
  }

  function TemporalReasons(p: Pair, x: Texts): seq<Reason> {
    if PassiveSnapshotsMayDiffer(p, x) then WithoutSnapshot(StrictReasons(p, x)) else StrictReasons(p, x)
  }

  lemma {:induction false} WithoutSnapshotKeepsTheRest(reasons: seq<Reason>)
    ensures forall r :: r in WithoutSnapshot(reasons) <==> r in reasons && r != Different(ListSnapshot)
  {
    if reasons != [] {
      WithoutSnapshotKeepsTheRest(reasons[1..]);
      assert reasons == [reasons[0]] + reasons[1..];
    }
  }

  // ---- Fingerprints and cohorts ----

  function EnvironmentFingerprint(c: Conditions, x: Texts): Option<string> {
    var automation, browser, agent := Known(c.automation, x), Known(c.chromiumVersion, x), Known(c.userAgent, x);
    var timezone, locale, language, egress :=
      Known(c.timezone, x), Known(c.locale, x), Known(c.language, x), Known(c.scannerEgress, x);
    if automation.None? || browser.None? || agent.None? || timezone.None? || locale.None? || language.None? || egress.None? then None
    else if ActiveEngine(c) && (Known(c.adblock.value.source, x).None? || Known(c.adblock.value.fetchedAt, x).None? ||
                                !IsPositiveInteger(c.adblock.value.lists)) then None
    else
      var engine :=
        if ActiveEngine(c)
        then Some((Known(c.adblock.value.source, x).value, c.adblock.value.lists, Known(c.adblock.value.fetchedAt, x).value))
        else None;
      Some(x.digest(EnvironmentOf(engine, automation.value, browser.value, egress.value, c.headless, language.value, locale.value,
                                  x.methodology(c.scannerDisclosure), timezone.value, agent.value, c.viewport)))
  }

  function Cohort(c: Conditions, environment: Option<string>, version: string, x: Texts): Option<string> {
    var t := c.trackerCatalog;
    var shields := if c.shieldsMode.Some? then Known(c.shieldsMode.value, x) else None;
    var region := if t.region.Some? then Known(t.region.value, x) else None;
    if environment.None? || shields.None? || Known(t.source, x).None? || Known(t.version, x).None? || region.None? ||
       Known(t.license, x).None? || !IsCount(t.entries) || t.curatedOverrides.None? || !IsCount(t.curatedOverrides.value) then None
    else Some(x.digest(CohortOf(version, environment.value, c.consentMode, c.gpcEnabled, shields.value, Known(t.source, x).value,
                                Known(t.version, x).value, region.value, t.entries, t.curatedOverrides.value,
                                Known(t.license, x).value)))
  }

  function WithMarker(c: Conditions): Conditions
    requires c.adblock.Some?
  {
    c.(adblock := Some(c.adblock.value.(fetchedAt := SNAPSHOT_OMITTED)))
  }

  /** The cohort in which passive history is suggested: the list snapshot is left out. */
  function HistoryCohort(c: Conditions, x: Texts): Option<string> {
    if c.shieldsMode != Some(CLASSIFICATION) || !ActiveEngine(c) || Known(c.adblock.value.source, x).None? ||
       Known(c.adblock.value.fetchedAt, x).None? || x.date(c.adblock.value.fetchedAt).None? ||
       !IsPositiveInteger(c.adblock.value.lists) then None
    else Cohort(c, EnvironmentFingerprint(WithMarker(c), x), "legacy-comparison-history-cohort-v1", x)
  }

  /** The cohort of automatic history deltas, with the list snapshot. */
  function TemporalCohort(c: Conditions, x: Texts): Option<string> {
    Cohort(c, EnvironmentFingerprint(c, x), "legacy-temporal-cohort-v1", x)
  }

  // ---- The decision ----

  datatype Mode = Comparable | RawOnly | Suppressed

  datatype Family = RawCounts | TrackerClassification | ShieldsSimulation | ConsentVerification | DetectorFindings

  datatype Match = Proven(equal: bool) | Unprovable

  datatype Decision = Decision(mode: Mode, sameSubject: bool, compatibility: Match, families: map<Family, Mode>)

  function Compatibility(p: Pair, x: Texts): Match {
    var b, v := EnvironmentFingerprint(p.baseline.conditions, x), EnvironmentFingerprint(p.variant.conditions, x);
    if b.Some? && v.Some? then Proven(b == v) else Unprovable
  }

  predicate CatalogsMatch(b: Catalog, v: Catalog) {
    && b.source != "" && v.source != "" && b.version != "" && v.version != ""
    && b.source == v.source && b.version == v.version && b.region == v.region && b.entries == v.entries
    && b.curatedOverrides == v.curatedOverrides
  }

  predicate Measured(v: Visit) {
    v.shieldsMeasured && ActiveEngine(v.conditions)
  }

  function ShieldsMode(p: Pair, x: Texts): Mode {
    var b, v := p.baseline.conditions, p.variant.conditions;
    if !Measured(p.baseline) && !Measured(p.variant) then Suppressed
    else if !Measured(p.baseline) || !Measured(p.variant) then RawOnly
    else if b.shieldsMode != v.shieldsMode then RawOnly
    else if b.adblock.value.source != v.adblock.value.source || b.adblock.value.fetchedAt != v.adblock.value.fetchedAt then RawOnly
    else if StrictReasons(p, x) == [] then Comparable else RawOnly
  }

  function LegacyDecision(p: Pair, x: Texts): Decision {
    var structural := TemporalReasons(p, x) == [];
    Decision(
      if structural then Comparable else RawOnly,
      SubjectsMatch(p, x),
      Compatibility(p, x),
      map[
        RawCounts := if structural then Comparable else RawOnly,
        TrackerClassification :=
          if structural && CatalogsMatch(p.baseline.conditions.trackerCatalog, p.variant.conditions.trackerCatalog)
          then Comparable else RawOnly,
        ShieldsSimulation := ShieldsMode(p, x),
        ConsentVerification := Suppressed,
        DetectorFindings := RawOnly
      ])
  }

  // ---- What a ruling implies ----

  lemma NoMismatchMeansEqual(d: Dimension, left: string, right: string, x: Texts)
    requires EnvironmentMismatch(d, left, right, x) == []
    ensures Known(left, x).Some? && Known(left, x) == Known(right, x)
  {
  }

  /** What no reason of the pipeline, environment or engine kind leaves to differ. */
  lemma NoReasonMeansSameEnvironment(b: Conditions, v: Conditions, x: Texts)
    requires PipelineReasons(b, v, x) == [] && EnvironmentReasons(b, v, x) == []
    ensures b.automation == v.automation && b.viewport == v.viewport && b.headless == v.headless
    ensures x.methodology(b.scannerDisclosure) == x.methodology(v.scannerDisclosure)
    ensures Known(b.chromiumVersion, x).Some? && Known(b.chromiumVersion, x) == Known(v.chromiumVersion, x)
    ensures Known(b.userAgent, x).Some? && Known(b.userAgent, x) == Known(v.userAgent, x)
    ensures Known(b.timezone, x).Some? && Known(b.timezone, x) == Known(v.timezone, x)
    ensures Known(b.locale, x).Some? && Known(b.locale, x) == Known(v.locale, x)
    ensures Known(b.language, x).Some? && Known(b.language, x) == Known(v.language, x)
    ensures Known(b.scannerEgress, x).Some? && Known(b.scannerEgress, x) == Known(v.scannerEgress, x)
  {
  }

  lemma EligibleParts(p: Pair, x: Texts)
    requires StrictReasons(p, x) == []
    ensures SubjectsMatch(p, x)
    ensures PipelineReasons(p.baseline.conditions, p.variant.conditions, x) == []
    ensures EnvironmentReasons(p.baseline.conditions, p.variant.conditions, x) == []
    ensures EngineReasons(p.baseline.conditions, p.variant.conditions, x) == []
  {
  }

  /** What the strict gate leaves unproved although the fingerprint needs it. */
  predicate FingerprintGap(c: Conditions, x: Texts) {
    Known(c.automation, x).None? || (ActiveEngine(c) && !IsPositiveInteger(c.adblock.value.lists))
  }

  /** Main result: strictly eligible visits have one subject, and fingerprints that match unless the gate never asked for a fact in them. */
  lemma EligibleIsCompatible(p: Pair, x: Texts)
    requires StrictReasons(p, x) == []
    ensures LegacyDecision(p, x).sameSubject && LegacyDecision(p, x).mode == Comparable
    ensures Compatibility(p, x) == if FingerprintGap(p.baseline.conditions, x) then Unprovable else Proven(true)
  {
    var b, v := p.baseline.conditions, p.variant.conditions;
    EligibleParts(p, x);
    NoReasonMeansSameEnvironment(b, v, x);
    WithoutSnapshotKeepsTheRest(StrictReasons(p, x));
    if ActiveEngine(b) {
      NoMismatchMeansEqual(ListSource, b.adblock.value.source, v.adblock.value.source, x);
      NoMismatchMeansEqual(ListSnapshot, b.adblock.value.fetchedAt, v.adblock.value.fetchedAt, x);
    }
  }

  /** Main result: no family is comparable unless the pair is, on one subject; and Shields only with matching engines. */
  lemma FamiliesWithinPair(p: Pair, x: Texts)
    ensures var d := LegacyDecision(p, x);
      && (d.mode == Comparable ==> d.sameSubject)
      && (forall f :: f in d.families && d.families[f] == Comparable ==> d.mode == Comparable)
      && (d.families[ShieldsSimulation] == Comparable ==> d.compatibility != Proven(false))
      && (d.families[ShieldsSimulation] == Suppressed <==> !Measured(p.baseline) && !Measured(p.variant))
  {
    WithoutSnapshotKeepsTheRest(StrictReasons(p, x));
    SubjectReasonsDecide(p, x);
    if StrictReasons(p, x) == [] {
      EligibleIsCompatible(p, x);
    }
  }

  /** Whatever the temporal gate forgives, it is never the subject. */
  lemma SubjectReasonsDecide(p: Pair, x: Texts)
    ensures TemporalReasons(p, x) == [] ==> SubjectsMatch(p, x)
    ensures StrictReasons(p, x) == [] ==> TemporalReasons(p, x) == []
  {
    var f, all := SubjectFactsOf(p, x), StrictReasons(p, x);
    WithoutSnapshotKeepsTheRest(all);
    if !f.hostsMatch {
      assert DifferentSites in SubjectReasons(p, x);
      assert DifferentSites in all;
    } else if !f.baselineKnown {
      assert UnknownSubject(BaselineArm) in SubjectReasons(p, x);
      assert UnknownSubject(BaselineArm) in all;
    } else if !f.variantKnown {
      assert UnknownSubject(VariantArm) in SubjectReasons(p, x);
      assert UnknownSubject(VariantArm) in all;
    } else if !f.requestedMatch {
      assert DifferentRequests in all;
    } else if !f.observedMatch {
      assert DifferentEndings in all;
    }
  }

  // ---- History cohorts ----

  /** Reasons about the environment, the device, the engine, or a dimension that had to be held constant. */
  predicate IsConditionReason(r: Reason) {
    || r.DifferentDevices? || r.DifferentPipelines? || r.DifferentMethodologies? || r.DifferentViewports?
    || r.DifferentHeadless? || r.Unrecorded? || r.Different? || r.OneEngineOnly? || r.DifferentListCounts?
    || r.UndeclaredGpc? || r.UndeclaredConsent? || r.UndeclaredBlocking?
  }

  ghost predicate NoConditionReason(reasons: seq<Reason>) {
    forall r :: r in reasons ==> !IsConditionReason(r)
  }

  lemma {:induction false} DefectsAreNoConditions(arm: Arm, defects: seq<Defect>)
    ensures NoConditionReason(DefectReasons(arm, defects))
  {
    if defects != [] {
      DefectsAreNoConditions(arm, defects[1..]);
    }
  }

  ghost predicate Faithful(x: Texts) {
    && (forall a, b :: x.digest(a) == x.digest(b) ==> a == b)
    && (forall s :: x.date(s).Some? ==> x.date(x.trim(s)).Some?)
  }

  lemma CohortsAgree(b: Conditions, v: Conditions, x: Texts)
    requires Faithful(x) && HistoryCohort(b, x).Some? && HistoryCohort(b, x) == HistoryCohort(v, x)
    ensures EnvironmentFingerprint(WithMarker(b), x).Some?
    ensures EnvironmentFingerprint(WithMarker(b), x) == EnvironmentFingerprint(WithMarker(v), x)
    ensures b.consentMode == v.consentMode && b.gpcEnabled == v.gpcEnabled
    ensures b.shieldsMode == v.shieldsMode == Some(CLASSIFICATION)
  {
    SameCohort(b, EnvironmentFingerprint(WithMarker(b), x), v, EnvironmentFingerprint(WithMarker(v), x),
               "legacy-comparison-history-cohort-v1", x);
  }

  lemma SameCohort(b: Conditions, be: Option<string>, v: Conditions, ve: Option<string>, version: string, x: Texts)
    requires Faithful(x) && Cohort(b, be, version, x).Some? && Cohort(b, be, version, x) == Cohort(v, ve, version, x)
    ensures be.Some? && be == ve && b.consentMode == v.consentMode && b.gpcEnabled == v.gpcEnabled
  {
  }

  lemma CohortIff(b: Conditions, be: Option<string>, v: Conditions, ve: Option<string>, version: string, other: string, x: Texts)
    requires Faithful(x) && Cohort(b, be, version, x).Some? && Cohort(v, ve, version, x).Some?
    requires Cohort(b, be, other, x).Some? && Cohort(v, ve, other, x).Some?
    ensures Cohort(b, be, version, x) == Cohort(v, ve, version, x) <==> Cohort(b, be, other, x) == Cohort(v, ve, other, x)
  {
  }

  lemma MarkedFingerprintsIff(b: Conditions, v: Conditions, x: Texts)
    requires Faithful(x) && ActiveEngine(b) && ActiveEngine(v)
    requires EnvironmentFingerprint(b, x).Some? && EnvironmentFingerprint(v, x).Some?
    requires EnvironmentFingerprint(WithMarker(b), x).Some? && EnvironmentFingerprint(WithMarker(v), x).Some?
    ensures EnvironmentFingerprint(b, x) == EnvironmentFingerprint(v, x) <==>
      EnvironmentFingerprint(WithMarker(b), x) == EnvironmentFingerprint(WithMarker(v), x) &&
      Known(b.adblock.value.fetchedAt, x) == Known(v.adblock.value.fetchedAt, x)
  {
  }

  /** Fingerprints enter a cohort whole. */
  lemma CohortSeparates(b: Conditions, be: string, v: Conditions, ve: string, other: string, version: string, x: Texts)
    requires Faithful(x) && Cohort(b, Some(be), version, x).Some? && Cohort(v, Some(ve), version, x).Some?
    ensures Cohort(b, Some(be), version, x) == Cohort(v, Some(ve), version, x) <==>
      be == ve && Cohort(b, Some(other), version, x) == Cohort(v, Some(other), version, x)
  {
  }

  lemma TwoCohortsIff(b: Conditions, be: string, bm: string, v: Conditions, ve: string, vm: string,
                      strict: string, history: string, same: bool, x: Texts)
    requires Faithful(x) && (be == ve <==> bm == vm && same)
    requires Cohort(b, Some(be), strict, x).Some? && Cohort(v, Some(ve), strict, x).Some?
    ensures Cohort(b, Some(be), strict, x) == Cohort(v, Some(ve), strict, x) <==>
      Cohort(b, Some(bm), history, x) == Cohort(v, Some(vm), history, x) && same
  {
    CohortSeparates(b, be, v, ve, be, strict, x);
    CohortSeparates(b, bm, v, vm, be, history, x);
    CohortIff(b, Some(be), v, Some(be), strict, history, x);
  }

  lemma HistoryCohortIsMarked(c: Conditions, x: Texts)
    requires HistoryCohort(c, x).Some?
    ensures ActiveEngine(c) && EnvironmentFingerprint(c, x).Some? && EnvironmentFingerprint(WithMarker(c), x).Some?
    ensures HistoryCohort(c, x) == Cohort(c, EnvironmentFingerprint(WithMarker(c), x), "legacy-comparison-history-cohort-v1", x)
    ensures TemporalCohort(c, x).Some?
  {
  }

  lemma VersionsSeparate(b: Conditions, be: Option<string>, v: Conditions, ve: Option<string>, version: string, other: string, x: Texts)
    requires Faithful(x) && version != other && Cohort(b, be, version, x).Some?
    ensures Cohort(b, be, version, x) != Cohort(v, ve, other, x)
  {
  }

  /**
   Main result: the history cohort is the strict one but for the list snapshot. Every visit of a history
   cohort has a strict one; two such visits share the strict one exactly when they share the history
   cohort and the snapshot.
   */
  lemma StrictCohortIff(b: Conditions, v: Conditions, x: Texts)
    requires Faithful(x) && HistoryCohort(b, x).Some? && HistoryCohort(v, x).Some?
    ensures TemporalCohort(b, x).Some? && TemporalCohort(b, x) != HistoryCohort(v, x)
    ensures b.adblock.Some? && v.adblock.Some?
    ensures TemporalCohort(b, x) == TemporalCohort(v, x) <==>
      HistoryCohort(b, x) == HistoryCohort(v, x) && Known(b.adblock.value.fetchedAt, x) == Known(v.adblock.value.fetchedAt, x)
  {
    HistoryCohortIsMarked(b, x);
    HistoryCohortIsMarked(v, x);
    var strict, history := "legacy-temporal-cohort-v1", "legacy-comparison-history-cohort-v1";
    var be, ve := EnvironmentFingerprint(b, x).value, EnvironmentFingerprint(v, x).value;
    var bm, vm := EnvironmentFingerprint(WithMarker(b), x).value, EnvironmentFingerprint(WithMarker(v), x).value;
    MarkedFingerprintsIff(b, v, x);
    VersionsSeparate(b, Some(be), v, Some(vm), strict, history, x);
    TwoCohortsIff(b, be, bm, v, ve, vm, strict, history,
                  Known(b.adblock.value.fetchedAt, x) == Known(v.adblock.value.fetchedAt, x), x);
  }

  lemma FingerprintsAgree(b: Conditions, v: Conditions, x: Texts)
    requires Faithful(x) && EnvironmentFingerprint(b, x).Some? && EnvironmentFingerprint(b, x) == EnvironmentFingerprint(v, x)
    ensures Known(b.automation, x) == Known(v.automation, x) && b.viewport == v.viewport && b.headless == v.headless
    ensures x.methodology(b.scannerDisclosure) == x.methodology(v.scannerDisclosure)
    ensures EnvironmentReasons(b, v, x) == []
    ensures ActiveEngine(b) == ActiveEngine(v)
    ensures ActiveEngine(b) ==> Known(b.adblock.value.source, x) == Known(v.adblock.value.source, x)
    ensures ActiveEngine(b) ==> b.adblock.value.lists == v.adblock.value.lists
  {
  }

  lemma MarkerChangesOnlyTheSnapshot(b: Conditions, v: Conditions, x: Texts)
    requires b.adblock.Some? && v.adblock.Some?
    ensures EnvironmentReasons(WithMarker(b), WithMarker(v), x) == EnvironmentReasons(b, v, x)
    ensures PipelineReasons(WithMarker(b), WithMarker(v), x) == PipelineReasons(b, v, x)
  {
  }

  lemma EngineReasonsOfCohort(p: Pair, x: Texts)
    requires p.kind == Temporal && Faithful(x)
    requires HistoryCohort(p.baseline.conditions, x).Some?
    requires HistoryCohort(p.baseline.conditions, x) == HistoryCohort(p.variant.conditions, x)
    ensures PassiveSnapshotsMayDiffer(p, x)
    ensures forall r :: r in EngineReasons(p.baseline.conditions, p.variant.conditions, x) ==> r == Different(ListSnapshot)
  {
    var b, v := p.baseline.conditions, p.variant.conditions;
    CohortsAgree(b, v, x);
    FingerprintsAgree(WithMarker(b), WithMarker(v), x);
    assert Known(b.adblock.value.source, x) == Known(WithMarker(b).adblock.value.source, x);
    assert x.date(x.trim(b.adblock.value.fetchedAt)).Some? && x.date(x.trim(v.adblock.value.fetchedAt)).Some?;
  }

  lemma StrictReasonsCome(p: Pair, x: Texts, r: Reason)
    requires r in StrictReasons(p, x)
    ensures var b, v := p.baseline.conditions, p.variant.conditions;
      || r in ArmReasons(BaselineArm, p.baseline) || r in ArmReasons(VariantArm, p.variant) || r in SubjectReasons(p, x)
      || r in PipelineReasons(b, v, x) || r == DifferentRequests || r in EnvironmentReasons(b, v, x) || r in EngineReasons(b, v, x)
      || r == DifferentEndings || r in HeldConstantReasons(p) || r in OrderReasons(p, x) || r in DesignReasons(p)
  {
  }

  lemma OtherReasonsAreNoConditions(p: Pair, x: Texts)
    ensures NoConditionReason(ArmReasons(BaselineArm, p.baseline)) && NoConditionReason(ArmReasons(VariantArm, p.variant))
    ensures NoConditionReason(SubjectReasons(p, x)) && NoConditionReason(OrderReasons(p, x)) && NoConditionReason(DesignReasons(p))
  {
    ArmReasonsAreNoConditions(BaselineArm, p.baseline);
    ArmReasonsAreNoConditions(VariantArm, p.variant);
    DesignReasonsAreNoConditions(p);
  }

  lemma ArmReasonsAreNoConditions(arm: Arm, visit: Visit)
    ensures NoConditionReason(ArmReasons(arm, visit))
  {
    DefectsAreNoConditions(arm, visit.defects);
  }

  lemma DesignReasonsAreNoConditions(p: Pair)
    ensures NoConditionReason(DesignReasons(p))
  {
  }

  /** Where the condition reasons of the strict gate come from. */
  lemma ConditionReasonsCome(p: Pair, x: Texts, r: Reason)
    requires r in StrictReasons(p, x) && IsConditionReason(r)
    ensures var b, v := p.baseline.conditions, p.variant.conditions;
      r in PipelineReasons(b, v, x) || r in EnvironmentReasons(b, v, x) || r in EngineReasons(b, v, x) || r in HeldConstantReasons(p)
  {
    StrictReasonsCome(p, x, r);
    OtherReasonsAreNoConditions(p, x);
  }

  /**
   Main result: visits of one history cohort get no condition reason from the temporal gate, except
   that two spellings of the automation label that differ only where trimming removes it split them.
   */
  lemma CohortPairsOnlyByAutomation(p: Pair, x: Texts)
    requires p.kind == Temporal && Faithful(x)
    requires HistoryCohort(p.baseline.conditions, x).Some?
    requires HistoryCohort(p.baseline.conditions, x) == HistoryCohort(p.variant.conditions, x)
    ensures NoConditionReason(TemporalReasons(p, x)) <==> p.baseline.conditions.automation == p.variant.conditions.automation
    ensures forall r :: r in TemporalReasons(p, x) && IsConditionReason(r) ==> r == DifferentPipelines
    ensures x.trim(p.baseline.conditions.automation) == x.trim(p.variant.conditions.automation)
  {
    var b, v := p.baseline.conditions, p.variant.conditions;
    CohortsAgree(b, v, x);
    FingerprintsAgree(WithMarker(b), WithMarker(v), x);
    MarkerChangesOnlyTheSnapshot(b, v, x);
    EngineReasonsOfCohort(p, x);
    WithoutSnapshotKeepsTheRest(StrictReasons(p, x));
    forall r | r in TemporalReasons(p, x) && IsConditionReason(r)
      ensures r == DifferentPipelines && b.automation != v.automation
    {
      ConditionReasonsCome(p, x, r);
    }
    if b.automation != v.automation {
      assert DifferentPipelines in PipelineReasons(b, v, x);
      PipelineReasonsAreStrict(p, x, DifferentPipelines);
    }
  }

  lemma PipelineReasonsAreStrict(p: Pair, x: Texts, r: Reason)
    requires r in PipelineReasons(p.baseline.conditions, p.variant.conditions, x)
    ensures r in StrictReasons(p, x)
  {
  }

  /** It happens: the cohort does not see how the label is padded, the gate does. */
  lemma PaddingSplitsACohort(c: Conditions, padded: string, x: Texts)
    requires HistoryCohort(c, x).Some? && padded != c.automation && x.trim(padded) == x.trim(c.automation)
    ensures HistoryCohort(c.(automation := padded), x) == HistoryCohort(c, x)
    ensures forall p: Pair :: p.baseline.conditions == c && p.variant.conditions == c.(automation := padded) ==>
      DifferentPipelines in TemporalReasons(p, x)
  {
    var d := c.(automation := padded);
    assert EnvironmentFingerprint(WithMarker(d), x) == EnvironmentFingerprint(WithMarker(c), x);
    forall p: Pair | p.baseline.conditions == c && p.variant.conditions == d
      ensures DifferentPipelines in TemporalReasons(p, x)
    {
      assert DifferentPipelines in PipelineReasons(c, d, x);
      PipelineReasonsAreStrict(p, x, DifferentPipelines);
      WithoutSnapshotKeepsTheRest(StrictReasons(p, x));
    }
  }
}
