/**
 The filter engine: nine levels of exclusion evaluated in order, the first match decides.
 Regular expressions, globs and white-space trimming are parameters.
 */
module FilterEngine {
  import opened Prelude

  /** Library behaviour. A glob match is nothing when the pattern is malformed. */
  datatype Library = Library(
    regex: (string, string) -> bool,
    glob: (string, string) -> Option<bool>,
    trim: string -> string)

  const ANNOTATION_EXCLUDE := "wormsign.io/exclude"
  const ANNOTATION_EXCLUDE_DETECTORS := "wormsign.io/exclude-detectors"
  const ANNOTATION_SUPPRESS := "wormsign.io/suppress"

  /** A Go map that may be nil. */
  type Labels = Option<map<string, string>>

  datatype Requirement = Requirement(key: string, operator: string, values: seq<string>)

  datatype LabelSelector = LabelSelector(matchLabels: map<string, string>, matchExpressions: seq<Requirement>)

  datatype Schedule = Schedule(start: int, end: int)

  datatype Policy = Policy(
    name: string,
    ns: string,
    action: string,
    detectors: seq<string>,
    namespaceSelector: Option<LabelSelector>,
    resourceSelector: Option<LabelSelector>,
    ownerNames: seq<string>,
    schedule: Option<Schedule>)

  datatype NamespaceMeta = NamespaceMeta(name: string, labels: Labels, annotations: Labels)

  datatype OwnerMeta = OwnerMeta(name: string, annotations: Labels)

  datatype FilterInput = FilterInput(
    detector: string,
    resourceLabels: Labels,
    resourceAnnotations: Labels,
    namespace: NamespaceMeta,
    owners: seq<OwnerMeta>)

  datatype Pattern = Pattern(raw: string, exact: bool)

  datatype GlobalConfig = GlobalConfig(patterns: seq<Pattern>, excludeSelector: Option<LabelSelector>)

  datatype Reason =
    | NamespaceGlobal | NamespaceLabel | SuppressPolicy | NamespaceAnnotation
    | ResourceAnnotation | OwnerAnnotation | PolicyExclude

  /** `detectors` is set when only the listed detectors are excluded. */
  datatype FilterResult = Passed | Excluded(reason: Reason, detectors: Option<seq<string>>)

  // ----- matchers -----

  predicate Has(labels: Labels, key: string) {
    labels.Some? && key in labels.value
  }

  /** A missing key reads as the empty string. */
  function Lookup(labels: Labels, key: string): string {
    if Has(labels, key) then labels.value[key] else ""
  }

  predicate MatchesRequirement(labels: Labels, req: Requirement) {
    if req.operator == "In" then Has(labels, req.key) && Lookup(labels, req.key) in req.values
    else if req.operator == "NotIn" then Has(labels, req.key) ==> Lookup(labels, req.key) !in req.values
    else if req.operator == "Exists" then Has(labels, req.key)
    else if req.operator == "DoesNotExist" then !Has(labels, req.key)
    else false
  }

  predicate MatchesSelector(labels: Labels, selector: LabelSelector) {
    && (forall k :: k in selector.matchLabels ==> labels.Some? && Lookup(labels, k) == selector.matchLabels[k])
    && (forall req :: req in selector.matchExpressions ==> MatchesRequirement(labels, req))
  }

  /** strings.EqualFold with "true". */
  predicate IsTrue(s: string) {
    |s| == 4 && s[0] in "tT" && s[1] in "rR" && s[2] in "uU" && s[3] in "eE"
  }

  predicate AnnotationTrue(annotations: Labels, key: string) {
    annotations.Some? && IsTrue(Lookup(annotations, key))
  }

  function SplitCommas(s: string): (parts: seq<string>)
    ensures |parts| > 0
  {
    if s == [] then [""]
    else
      var rest, ch := SplitCommas(s[..|s| - 1]), s[|s| - 1];
      if ch == ',' then rest + [""] else rest[..|rest| - 1] + [rest[|rest| - 1] + [ch]]
  }

  function Trimmed(lib: Library, parts: seq<string>): seq<string> {
    if parts == [] then []
    else
      var rest, t := Trimmed(lib, parts[..|parts| - 1]), lib.trim(parts[|parts| - 1]);
      if t == "" then rest else rest + [t]
  }

  /** The detector names listed in the exclude-detectors annotation. */
  function ExcludedDetectors(lib: Library, annotations: Labels): seq<string> {
    var text := Lookup(annotations, ANNOTATION_EXCLUDE_DETECTORS);
    if text == "" then [] else Trimmed(lib, SplitCommas(text))
  }

  predicate AppliesToNamespace(p: Policy, ns: NamespaceMeta) {
    if p.namespaceSelector.Some? then MatchesSelector(ns.labels, p.namespaceSelector.value) else p.ns == ns.name
  }

  predicate AppliesToDetector(p: Policy, detector: string) {
    |p.detectors| > 0 ==> detector in p.detectors
  }

  predicate SuppressApplies(p: Policy, input: FilterInput, now: int) {
    && p.action == "Suppress"
    && (p.schedule.Some? ==> p.schedule.value.start <= now <= p.schedule.value.end)
    && AppliesToNamespace(p, input.namespace)
    && AppliesToDetector(p, input.detector)
  }

  predicate OwnerMatches(lib: Library, owners: seq<OwnerMeta>, patterns: seq<string>) {
    exists o, pattern :: o in owners && pattern in patterns && lib.glob(pattern, o.name) == Some(true)
  }

  predicate ExcludeApplies(lib: Library, p: Policy, input: FilterInput) {
    && p.action == "Exclude"
    && AppliesToNamespace(p, input.namespace)
    && AppliesToDetector(p, input.detector)
    && (p.resourceSelector.Some? ==> MatchesSelector(input.resourceLabels, p.resourceSelector.value))
    && (|p.ownerNames| > 0 ==> OwnerMatches(lib, input.owners, p.ownerNames))
  }

  // ----- the nine levels, declaratively -----

  predicate GlobalPatternMatches(lib: Library, p: Pattern, ns: string) {
    if p.exact then p.raw == ns else lib.regex(p.raw, ns)
  }

  /** Whether some suppress policy, and whether some exclude policy, counts as a match. */
  datatype PolicyHits = PolicyHits(suppress: bool, exclude: bool)

  ghost predicate Level(lib: Library, cfg: GlobalConfig, input: FilterInput, hits: PolicyHits, n: int) {
    match n
    case 1 => exists p :: p in cfg.patterns && GlobalPatternMatches(lib, p, input.namespace.name)
    case 2 => cfg.excludeSelector.Some? && cfg.excludeSelector.value != LabelSelector(map[], [])
              && MatchesSelector(input.namespace.labels, cfg.excludeSelector.value)
    case 3 => hits.suppress
    case 4 => AnnotationTrue(input.namespace.annotations, ANNOTATION_SUPPRESS)
    case 5 => AnnotationTrue(input.resourceAnnotations, ANNOTATION_EXCLUDE)
    case 6 => exists o :: o in input.owners && AnnotationTrue(o.annotations, ANNOTATION_EXCLUDE)
    case 7 => input.detector in ExcludedDetectors(lib, input.resourceAnnotations)
    case 8 => exists o :: o in input.owners && input.detector in ExcludedDetectors(lib, o.annotations)
    case 9 => hits.exclude
    case _ => false
  }

  /** What is promised: a policy counts when it applies. */
  ghost function Promised(lib: Library, policies: seq<Policy>, input: FilterInput, now: int): PolicyHits {
    PolicyHits(exists p :: p in policies && SuppressApplies(p, input, now),
               exists p :: p in policies && ExcludeApplies(lib, p, input))
  }

  ghost predicate NoLevelBelow(lib: Library, cfg: GlobalConfig, input: FilterInput, hits: PolicyHits, n: int) {
    forall m :: 1 <= m < n ==> !Level(lib, cfg, input, hits, m)
  }

  /** The result that level n calls for; level 10 stands for no exclusion. */
  ghost predicate DecidedBy(lib: Library, cfg: GlobalConfig, input: FilterInput, hits: PolicyHits, n: int, result: FilterResult) {
    && 1 <= n <= 10
    && NoLevelBelow(lib, cfg, input, hits, n)
    && (n < 10 ==> Level(lib, cfg, input, hits, n))
    && result == ResultOf(lib, input, n)
  }

  /** The least level that holds decides. */
  ghost predicate Decides(lib: Library, cfg: GlobalConfig, input: FilterInput, hits: PolicyHits, result: FilterResult) {
    exists n :: DecidedBy(lib, cfg, input, hits, n, result)
  }

  function ResultOf(lib: Library, input: FilterInput, n: int): FilterResult
    requires 1 <= n <= 10
  {
    if n == 10 then Passed
    else Excluded(ReasonOf(n),
                  if n == 7 then Some(ExcludedDetectors(lib, input.resourceAnnotations))
                  else if n == 8 then Some(Deduplicated(AllOwnerDetectors(lib, input.owners)))
                  else None)
  }

  function ReasonOf(n: int): Reason
    requires 1 <= n <= 9
  {
    [NamespaceGlobal, NamespaceLabel, SuppressPolicy, NamespaceAnnotation, ResourceAnnotation,
     OwnerAnnotation, ResourceAnnotation, OwnerAnnotation, PolicyExclude][n - 1]
  }

  // ----- the engine as written -----

  /** Keeps the first occurrence of every element. */
  function Deduplicated<T(==)>(s: seq<T>): seq<T> {
    if s == [] then []
    else
      var rest := Deduplicated(s[..|s| - 1]);
      if s[|s| - 1] in rest then rest else rest + [s[|s| - 1]]
  }

  lemma {:induction false} DeduplicatedFacts<T>(s: seq<T>)
    ensures Distinct(Deduplicated(s)) && forall x :: x in Deduplicated(s) <==> x in s
  {
    if s != [] {
      DeduplicatedFacts(s[..|s| - 1]);
      assert s == s[..|s| - 1] + [s[|s| - 1]];
    }
  }

  lemma DeduplicatedSnoc<T>(s: seq<T>, x: T)
    ensures Deduplicated(s + [x]) == if x in Deduplicated(s) then Deduplicated(s) else Deduplicated(s) + [x]
  {
    assert (s + [x])[..|s|] == s;
  }

  function AllOwnerDetectors(lib: Library, owners: seq<OwnerMeta>): seq<string> {
    if owners == [] then []
    else AllOwnerDetectors(lib, owners[..|owners| - 1]) + ExcludedDetectors(lib, owners[|owners| - 1].annotations)
  }

  lemma {:induction false} AllOwnerDetectorsMember(lib: Library, owners: seq<OwnerMeta>, d: string)
    ensures d in AllOwnerDetectors(lib, owners) <==> exists o :: o in owners && d in ExcludedDetectors(lib, o.annotations)
  {
    if owners != [] {
      var init, last := owners[..|owners| - 1], owners[|owners| - 1];
      AllOwnerDetectorsMember(lib, init, d);
      assert owners == init + [last];
      if d in ExcludedDetectors(lib, last.annotations) {
        assert last in owners;
      }
    }
  }

  lemma OwnerListed(lib: Library, owners: seq<OwnerMeta>, d: string)
    ensures d in Deduplicated(AllOwnerDetectors(lib, owners)) <==>
      exists o :: o in owners && d in ExcludedDetectors(lib, o.annotations)
  {
    DeduplicatedFacts(AllOwnerDetectors(lib, owners));
    AllOwnerDetectorsMember(lib, owners, d);
  }

  lemma DeduplicatedStep<T>(read: seq<T>, names: seq<T>, j: nat)
    requires j < |names|
    ensures var before := Deduplicated(read + names[..j]);
      Deduplicated(read + names[..j + 1]) == if names[j] in before then before else before + [names[j]]
  {
    assert read + names[..j + 1] == (read + names[..j]) + [names[j]];
    DeduplicatedSnoc(read + names[..j], names[j]);
  }

  /** `seen` is the set of names in `all`. */
  ghost predicate SeenAll<T(!new)>(seen: set<T>, all: seq<T>) {
    forall d :: d in seen <==> d in all
  }

  lemma SeenOneMore<T(!new)>(seen: set<T>, all: seq<T>, d: T)
    requires SeenAll(seen, all)
    ensures SeenAll(seen + {d}, all + [d]) && (d in seen <==> d in all)
  {
  }

  /** Appends the names not seen before. */
  method AddUnseen<T(==, !new)>(all: seq<T>, seen: set<T>, names: seq<T>, ghost read: seq<T>)
    returns (all': seq<T>, seen': set<T>)
    requires all == Deduplicated(read) && SeenAll(seen, all)
    ensures all' == Deduplicated(read + names) && SeenAll(seen', all')
  {
    all', seen' := all, seen;
    assert read + names[..0] == read;
    for j := 0 to |names|
      invariant all' == Deduplicated(read + names[..j]) && SeenAll(seen', all')
    {
      DeduplicatedStep(read, names, j);
      SeenOneMore(seen', all', names[j]);
      if names[j] !in seen' {
        all', seen' := all' + [names[j]], seen' + {names[j]};
      }
    }
    assert names[..|names|] == names;
  }

  lemma AllOwnerDetectorsStep(lib: Library, owners: seq<OwnerMeta>, i: nat)
    requires i < |owners|
    ensures AllOwnerDetectors(lib, owners[..i + 1])
         == AllOwnerDetectors(lib, owners[..i]) + ExcludedDetectors(lib, owners[i].annotations)
  {
    assert owners[..i + 1][..i] == owners[..i];
  }

  /** The union of the owners' lists, without repetitions, in order of first appearance. */
  method GetOwnerExcludedDetectors(lib: Library, owners: seq<OwnerMeta>) returns (all: seq<string>)
    ensures all == Deduplicated(AllOwnerDetectors(lib, owners))
  {
    all := [];
    var seen: set<string> := {};
    for i := 0 to |owners|
      invariant all == Deduplicated(AllOwnerDetectors(lib, owners[..i])) && SeenAll(seen, all)
    {
      AllOwnerDetectorsStep(lib, owners, i);
      all, seen := AddUnseen(all, seen, ExcludedDetectors(lib, owners[i].annotations), AllOwnerDetectors(lib, owners[..i]));
    }
    assert owners[..|owners|] == owners;
  }

  /** The first policy that applies decides by its name; the empty name counts as no match. */
  function FirstName(applies: Policy -> bool, policies: seq<Policy>): string {
    if policies == [] then "" else if applies(policies[0]) then policies[0].name else FirstName(applies, policies[1..])
  }

  function Suppresses(input: FilterInput, now: int): Policy -> bool {
    (p: Policy) => SuppressApplies(p, input, now)
  }

  function Excludes(lib: Library, input: FilterInput): Policy -> bool {
    (p: Policy) => ExcludeApplies(lib, p, input)
  }

  /** What the code computes: a policy counts when it is the first that applies and its name is not empty. */
  function Found(lib: Library, policies: seq<Policy>, input: FilterInput, now: int): PolicyHits {
    PolicyHits(FirstName(Suppresses(input, now), policies) != "", FirstName(Excludes(lib, input), policies) != "")
  }

  ghost predicate Named(policies: seq<Policy>) {
    forall p :: p in policies ==> p.name != ""
  }

  /** The first policy that applies has no name. */
  ghost predicate Masked(applies: Policy -> bool, policies: seq<Policy>) {
    exists i :: 0 <= i < |policies| && FirstAt(applies, policies, i) && policies[i].name == ""
  }

  ghost predicate FirstAt(applies: Policy -> bool, policies: seq<Policy>, i: nat) {
    && i < |policies| && applies(policies[i])
    && forall j :: 0 <= j < i ==> !applies(policies[j])
  }

  lemma {:induction false} FirstNameFacts(applies: Policy -> bool, policies: seq<Policy>) returns (i: nat)
    ensures i < |policies| ==> FirstAt(applies, policies, i) && FirstName(applies, policies) == policies[i].name
    ensures i >= |policies| ==> FirstName(applies, policies) == "" && forall p :: p in policies ==> !applies(p)
  {
    if policies == [] || applies(policies[0]) {
      i := 0;
    } else {
      var k := FirstNameFacts(applies, policies[1..]);
      assert policies == [policies[0]] + policies[1..];
      i := k + 1;
    }
  }

  /** The lookup reports a match exactly when some policy applies, unless the first one that does is unnamed. */
  lemma LookupIsExactIff(applies: Policy -> bool, policies: seq<Policy>)
    ensures (FirstName(applies, policies) != "" <==> exists p :: p in policies && applies(p)) <==> !Masked(applies, policies)
    ensures FirstName(applies, policies) != "" ==> exists p :: p in policies && applies(p)
  {
    var i := FirstNameFacts(applies, policies);
    if i < |policies| {
      assert policies[i] in policies && applies(policies[i]);
      if k: nat :| k < |policies| && FirstAt(applies, policies, k) && policies[k].name == "" {
        assert k == i;
      }
    }
  }

  class Engine {
    const lib: Library
    const cfg: GlobalConfig
    var policies: seq<Policy>

    constructor (lib: Library, cfg: GlobalConfig)
      ensures this.lib == lib && this.cfg == cfg && policies == []
    {
      this.lib, this.cfg, policies := lib, cfg, [];
    }

    method SetPolicies(policies: seq<Policy>)
      modifies this
      ensures this.policies == policies
    {
      this.policies := policies;
    }

    method MatchesGlobalNamespace(ns: string) returns (hit: bool)
      ensures hit <==> exists p :: p in cfg.patterns && GlobalPatternMatches(lib, p, ns)
    {
      for i := 0 to |cfg.patterns|
        invariant forall j :: 0 <= j < i ==> !GlobalPatternMatches(lib, cfg.patterns[j], ns)
      {
        var p := cfg.patterns[i];
        if p.exact {
          if p.raw == ns {
            assert p in cfg.patterns && GlobalPatternMatches(lib, p, ns);
            return true;
          }
        } else if lib.regex(p.raw, ns) {
          assert p in cfg.patterns && GlobalPatternMatches(lib, p, ns);
          return true;
        }
      }
      return false;
    }

    method MatchesSuppressPolicy(input: FilterInput, now: int) returns (name: string)
      ensures name == FirstName(Suppresses(input, now), policies)
    {
      for i := 0 to |policies|
        invariant FirstName(Suppresses(input, now), policies) == FirstName(Suppresses(input, now), policies[i..])
      {
        var p := policies[i];
        assert policies[i..][1..] == policies[i + 1..];
        if p.action != "Suppress" {
          continue;
        }
        if p.schedule.Some? {
          if now < p.schedule.value.start || p.schedule.value.end < now {
            continue;
          }
        }
        if !AppliesToNamespace(p, input.namespace) {
          continue;
        }
        if |p.detectors| > 0 && input.detector !in p.detectors {
          continue;
        }
        return p.name;
      }
      return "";
    }

    method MatchesExcludePolicy(input: FilterInput) returns (name: string)
      ensures name == FirstName(Excludes(lib, input), policies)
    {
      for i := 0 to |policies|
        invariant FirstName(Excludes(lib, input), policies) == FirstName(Excludes(lib, input), policies[i..])
      {
        var p := policies[i];
        assert policies[i..][1..] == policies[i + 1..];
        if p.action != "Exclude" {
          continue;
        }
        if !AppliesToNamespace(p, input.namespace) {
          continue;
        }
        if |p.detectors| > 0 && input.detector !in p.detectors {
          continue;
        }
        if p.resourceSelector.Some? {
          if !MatchesSelector(input.resourceLabels, p.resourceSelector.value) {
            continue;
          }
        }
        if |p.ownerNames| > 0 {
          if !OwnerMatches(lib, input.owners, p.ownerNames) {
            continue;
          }
        }
        return p.name;
      }
      return "";
    }

    method OwnerHasAnnotation(owners: seq<OwnerMeta>, key: string) returns (hit: bool)
      ensures hit <==> exists o :: o in owners && AnnotationTrue(o.annotations, key)
    {
      for i := 0 to |owners|
        invariant forall j :: 0 <= j < i ==> !AnnotationTrue(owners[j].annotations, key)
      {
        if AnnotationTrue(owners[i].annotations, key) {
          assert owners[i] in owners;
          return true;
        }
      }
      return false;
    }

    /** The least of the nine levels that holds gives the result. */
    method Evaluate(input: FilterInput, now: int) returns (result: FilterResult)
      ensures Decides(lib, cfg, input, Found(lib, policies, input, now), result)
    {
      ghost var hits := Found(lib, policies, input, now);
      var global := MatchesGlobalNamespace(input.namespace.name);
      if global {
        Decide(lib, cfg, input, hits, 1);
        return Excluded(NamespaceGlobal, None);
      }
      RuleOut(lib, cfg, input, hits, 1);
      if cfg.excludeSelector.Some? {
        var sel := cfg.excludeSelector.value;
        if !(|sel.matchLabels| == 0 && |sel.matchExpressions| == 0) {
          if MatchesSelector(input.namespace.labels, sel) {
            Decide(lib, cfg, input, hits, 2);
            return Excluded(NamespaceLabel, None);
          }
        }
      }
      RuleOut(lib, cfg, input, hits, 2);
      var suppress := MatchesSuppressPolicy(input, now);
      if suppress != "" {
        Decide(lib, cfg, input, hits, 3);
        return Excluded(SuppressPolicy, None);
      }
      RuleOut(lib, cfg, input, hits, 3);
      if AnnotationTrue(input.namespace.annotations, ANNOTATION_SUPPRESS) {
        Decide(lib, cfg, input, hits, 4);
        return Excluded(NamespaceAnnotation, None);
      }
      RuleOut(lib, cfg, input, hits, 4);
      if AnnotationTrue(input.resourceAnnotations, ANNOTATION_EXCLUDE) {
        Decide(lib, cfg, input, hits, 5);
        return Excluded(ResourceAnnotation, None);
      }
      RuleOut(lib, cfg, input, hits, 5);
      var owned := OwnerHasAnnotation(input.owners, ANNOTATION_EXCLUDE);
      if owned {
        Decide(lib, cfg, input, hits, 6);
        return Excluded(OwnerAnnotation, None);
      }
      RuleOut(lib, cfg, input, hits, 6);
      var listed := ExcludedDetectors(lib, input.resourceAnnotations);
      if input.detector in listed {
        Decide(lib, cfg, input, hits, 7);
        return Excluded(ResourceAnnotation, Some(listed));
      }
      RuleOut(lib, cfg, input, hits, 7);
      var ownerListed := GetOwnerExcludedDetectors(lib, input.owners);
      OwnerListed(lib, input.owners, input.detector);
      if input.detector in ownerListed {
        Decide(lib, cfg, input, hits, 8);
        return Excluded(OwnerAnnotation, Some(ownerListed));
      }
      RuleOut(lib, cfg, input, hits, 8);
      var exclude := MatchesExcludePolicy(input);
      if exclude != "" {
        Decide(lib, cfg, input, hits, 9);
        return Excluded(PolicyExclude, None);
      }
      RuleOut(lib, cfg, input, hits, 9);
      Decide(lib, cfg, input, hits, 10);
      return Passed;
    }
  }

  lemma Decide(lib: Library, cfg: GlobalConfig, input: FilterInput, hits: PolicyHits, n: int)
    requires 1 <= n <= 10 && NoLevelBelow(lib, cfg, input, hits, n) && (n < 10 ==> Level(lib, cfg, input, hits, n))
    ensures Decides(lib, cfg, input, hits, ResultOf(lib, input, n))
  {
    assert DecidedBy(lib, cfg, input, hits, n, ResultOf(lib, input, n));
  }

  lemma RuleOut(lib: Library, cfg: GlobalConfig, input: FilterInput, hits: PolicyHits, n: int)
    requires 1 <= n && NoLevelBelow(lib, cfg, input, hits, n) && !Level(lib, cfg, input, hits, n)
    ensures NoLevelBelow(lib, cfg, input, hits, n + 1)
  {
  }

  // ----- what the decision means -----

  lemma DecisionUnique(lib: Library, cfg: GlobalConfig, input: FilterInput, hits: PolicyHits, r: FilterResult, r': FilterResult)
    ensures Decides(lib, cfg, input, hits, r) && Decides(lib, cfg, input, hits, r') ==> r == r'
  {
    if Decides(lib, cfg, input, hits, r) && Decides(lib, cfg, input, hits, r') {
      var n :| DecidedBy(lib, cfg, input, hits, n, r);
      var n' :| DecidedBy(lib, cfg, input, hits, n', r');
      assert n < n' ==> !Level(lib, cfg, input, hits, n);
      assert n' < n ==> !Level(lib, cfg, input, hits, n');
    }
  }

  /** Excluded iff one of the nine levels holds. */
  lemma ExcludedIffSomeLevel(lib: Library, cfg: GlobalConfig, input: FilterInput, hits: PolicyHits, r: FilterResult)
    requires Decides(lib, cfg, input, hits, r)
    ensures r.Excluded? <==> exists n :: 1 <= n <= 9 && Level(lib, cfg, input, hits, n)
  {
    var n :| DecidedBy(lib, cfg, input, hits, n, r);
    assert n == 10 ==> NoLevelBelow(lib, cfg, input, hits, 10);
  }

  /** An unnamed policy spoils the decision when nothing above it decides. */
  ghost predicate Spoiled(lib: Library, cfg: GlobalConfig, policies: seq<Policy>, input: FilterInput, now: int) {
    var hits := Promised(lib, policies, input, now);
    || (Masked(Suppresses(input, now), policies) && NoLevelBelow(lib, cfg, input, hits, 3))
    || (Masked(Excludes(lib, input), policies) && NoLevelBelow(lib, cfg, input, hits, 9))
  }

  lemma FoundVersusPromised(lib: Library, policies: seq<Policy>, input: FilterInput, now: int)
    ensures var found, promised := Found(lib, policies, input, now), Promised(lib, policies, input, now);
      && (found.suppress == promised.suppress <==> !Masked(Suppresses(input, now), policies))
      && (found.exclude == promised.exclude <==> !Masked(Excludes(lib, input), policies))
      && (found.suppress ==> promised.suppress) && (found.exclude ==> promised.exclude)
  {
    LookupIsExactIff(Suppresses(input, now), policies);
    LookupIsExactIff(Excludes(lib, input), policies);
    assert forall p :: Suppresses(input, now)(p) == SuppressApplies(p, input, now);
    assert forall p :: Excludes(lib, input)(p) == ExcludeApplies(lib, p, input);
  }

  /** The engine's answer is the promised one exactly when no unnamed policy spoils it. */
  lemma EvaluateMeetsPromiseIff(lib: Library, cfg: GlobalConfig, policies: seq<Policy>, input: FilterInput, now: int, r: FilterResult)
    requires Decides(lib, cfg, input, Found(lib, policies, input, now), r)
    ensures Decides(lib, cfg, input, Promised(lib, policies, input, now), r) <==> !Spoiled(lib, cfg, policies, input, now)
  {
    FoundVersusPromised(lib, policies, input, now);
    DecisionsAgreeIff(lib, cfg, input, Found(lib, policies, input, now), Promised(lib, policies, input, now), r);
  }

  lemma DecisionsAgreeIff(lib: Library, cfg: GlobalConfig, input: FilterInput, found: PolicyHits, promised: PolicyHits, r: FilterResult)
    requires found.suppress ==> promised.suppress
    requires found.exclude ==> promised.exclude
    requires Decides(lib, cfg, input, found, r)
    ensures Decides(lib, cfg, input, promised, r) <==>
      && !(found.suppress != promised.suppress && NoLevelBelow(lib, cfg, input, promised, 3))
      && !(found.exclude != promised.exclude && NoLevelBelow(lib, cfg, input, promised, 9))
  {
    var n :| DecidedBy(lib, cfg, input, found, n, r);
    assert forall m :: m != 3 && m != 9 ==> Level(lib, cfg, input, found, m) == Level(lib, cfg, input, promised, m);
    assert Level(lib, cfg, input, found, 3) == found.suppress && Level(lib, cfg, input, promised, 3) == promised.suppress;
    assert Level(lib, cfg, input, found, 9) == found.exclude && Level(lib, cfg, input, promised, 9) == promised.exclude;
    if found.suppress != promised.suppress && NoLevelBelow(lib, cfg, input, promised, 3) {
      assert DecidedBy(lib, cfg, input, promised, 3, ResultOf(lib, input, 3));
      DecisionUnique(lib, cfg, input, promised, r, ResultOf(lib, input, 3));
    } else if found.exclude != promised.exclude && NoLevelBelow(lib, cfg, input, promised, 9) {
      assert DecidedBy(lib, cfg, input, promised, 9, ResultOf(lib, input, 9));
      DecisionUnique(lib, cfg, input, promised, r, ResultOf(lib, input, 9));
    } else {
      assert DecidedBy(lib, cfg, input, promised, n, r);
    }
  }

  /** With named policies every answer is the promised one. */
  lemma NamedPoliciesMeetPromise(lib: Library, cfg: GlobalConfig, policies: seq<Policy>, input: FilterInput, now: int, r: FilterResult)
    requires Named(policies)
    requires Decides(lib, cfg, input, Found(lib, policies, input, now), r)
    ensures Decides(lib, cfg, input, Promised(lib, policies, input, now), r)
  {
    assert forall i :: 0 <= i < |policies| ==> policies[i] in policies;
    EvaluateMeetsPromiseIff(lib, cfg, policies, input, now, r);
  }

  /** Any permutation of named policies gives the same answer. */
  lemma PolicyOrderIrrelevant(lib: Library, cfg: GlobalConfig, p: seq<Policy>, q: seq<Policy>, input: FilterInput, now: int,
                              r: FilterResult, r': FilterResult)
    requires multiset(p) == multiset(q) && Named(p)
    requires Decides(lib, cfg, input, Found(lib, p, input, now), r)
    requires Decides(lib, cfg, input, Found(lib, q, input, now), r')
    ensures r == r'
  {
    assert forall x :: x in p <==> x in q by {
      assert forall x :: x in p <==> x in multiset(p);
      assert forall x :: x in q <==> x in multiset(q);
    }
    NamedPoliciesMeetPromise(lib, cfg, p, input, now, r);
    NamedPoliciesMeetPromise(lib, cfg, q, input, now, r');
    assert Promised(lib, p, input, now) == Promised(lib, q, input, now);
    DecisionUnique(lib, cfg, input, Promised(lib, p, input, now), r, r');
  }

  ghost predicate HiddenBehind(lib: Library, cfg: GlobalConfig, p: Policy, q: Policy, input: FilterInput, now: int) {
    && Decides(lib, cfg, input, Found(lib, [p, q], input, now), Passed)
    && Decides(lib, cfg, input, Found(lib, [q, p], input, now), Excluded(SuppressPolicy, None))
  }

  /** Without names the order matters: an unnamed suppress policy hides a named one behind it. */
  lemma UnnamedPolicyMasks(lib: Library)
    ensures exists cfg, p, q, input, now :: HiddenBehind(lib, cfg, p, q, input, now)
  {
    var p := Policy("", "shop", "Suppress", [], None, None, [], None);
    var q := p.(name := "quiet");
    var input := FilterInput("d", None, None, NamespaceMeta("shop", None, None), []);
    var cfg := GlobalConfig([], None);
    assert [p, q][1..] == [q] && [q, p][1..] == [p] && [p][1..] == [];
    assert ExcludedDetectors(lib, None) == [];
    var hidden, seen := Found(lib, [p, q], input, 0), Found(lib, [q, p], input, 0);
    assert FirstName(Excludes(lib, input), [p]) == FirstName(Excludes(lib, input), [q]) == "";
    assert hidden == PolicyHits(false, false) && seen == PolicyHits(true, false);
    assert !AnnotationTrue(None, ANNOTATION_SUPPRESS) && !AnnotationTrue(None, ANNOTATION_EXCLUDE);
    assert NoLevelBelow(lib, cfg, input, hidden, 10);
    assert DecidedBy(lib, cfg, input, Found(lib, [p, q], input, 0), 10, Passed);
    assert Decides(lib, cfg, input, hidden, Passed);
    assert DecidedBy(lib, cfg, input, Found(lib, [q, p], input, 0), 3, Excluded(SuppressPolicy, None));
    assert Decides(lib, cfg, input, seen, Excluded(SuppressPolicy, None));
    assert HiddenBehind(lib, cfg, p, q, input, 0);
  }

  // ----- what the matchers mean -----

  /** The four operators: a missing key is in no set and exists not; the negative ones are exact complements. */
  lemma OperatorsByName(labels: Labels, key: string, values: seq<string>, operator: string)
    ensures MatchesRequirement(labels, Requirement(key, "Exists", values)) <==> labels.Some? && key in labels.value
    ensures MatchesRequirement(labels, Requirement(key, "In", values)) <==>
      labels.Some? && key in labels.value && labels.value[key] in values
    ensures MatchesRequirement(labels, Requirement(key, "NotIn", values)) <==>
      !MatchesRequirement(labels, Requirement(key, "In", values))
    ensures MatchesRequirement(labels, Requirement(key, "DoesNotExist", values)) <==>
      !MatchesRequirement(labels, Requirement(key, "Exists", values))
    ensures operator !in {"In", "NotIn", "Exists", "DoesNotExist"} ==>
      !MatchesRequirement(labels, Requirement(key, operator, values))
  {
    assert "In"[0] == 'I' && "NotIn"[0] == 'N' && "Exists"[0] == 'E' && "DoesNotExist"[0] == 'D';
  }

  /** What the documentation of the selector says: every listed label is present with its value, and every expression holds. */
  ghost predicate SelectsAsDocumented(labels: Labels, selector: LabelSelector) {
    && (forall k :: k in selector.matchLabels ==> labels.Some? && k in labels.value && labels.value[k] == selector.matchLabels[k])
    && (forall req :: req in selector.matchExpressions ==> MatchesRequirement(labels, req))
  }

  /** A label that the selector wants empty and the object lacks. */
  ghost predicate EmptyAndMissing(labels: Labels, selector: LabelSelector) {
    exists k :: k in selector.matchLabels && selector.matchLabels[k] == "" && labels.Some? && k !in labels.value
  }

  /** The code reads a missing label as empty, so it differs exactly when all else matches and a label is wanted empty and missing. */
  lemma SelectorIsDocumentedIff(labels: Labels, selector: LabelSelector)
    ensures SelectsAsDocumented(labels, selector) ==> MatchesSelector(labels, selector)
    ensures MatchesSelector(labels, selector) ==>
      (SelectsAsDocumented(labels, selector) <==> !EmptyAndMissing(labels, selector))
  {
  }

  lemma EmptyLabelMatchesMissing()
    ensures var labels, selector := Some(map[]), LabelSelector(map["tier" := ""], []);
      MatchesSelector(labels, selector) && !SelectsAsDocumented(labels, selector)
  {
    var selector := LabelSelector(map["tier" := ""], []);
    assert "tier" in selector.matchLabels;
  }

  function LowerCase(ch: char): char {
    if 'A' <= ch <= 'Z' then (ch as int + 32) as char else ch
  }

  /** Only "true" in any mixture of cases counts. */
  lemma TrueInAnyCase(s: string)
    ensures IsTrue(s) <==> |s| == 4 && [LowerCase(s[0]), LowerCase(s[1]), LowerCase(s[2]), LowerCase(s[3])] == "true"
  {
  }

  /** Without a selector a policy covers its own namespace only; with one it covers what the selector matches, wherever it lives. */
  lemma NamespaceScope(p: Policy, elsewhere: string, ns: NamespaceMeta)
    ensures p.namespaceSelector == None ==> (AppliesToNamespace(p, ns) <==> p.ns == ns.name)
    ensures p.namespaceSelector.Some? ==> AppliesToNamespace(p, ns) == AppliesToNamespace(p.(ns := elsewhere), ns)
    ensures p.namespaceSelector.Some? ==> (AppliesToNamespace(p, ns) <==> MatchesSelector(ns.labels, p.namespaceSelector.value))
  {
  }

  /** An owner has to match some pattern that is well formed; a malformed one matches nobody. */
  lemma OwnerPatterns(lib: Library, owners: seq<OwnerMeta>, patterns: seq<string>)
    ensures OwnerMatches(lib, owners, patterns) <==>
      exists i, j :: 0 <= i < |owners| && 0 <= j < |patterns| && lib.glob(patterns[j], owners[i].name) == Some(true)
    ensures (forall j :: 0 <= j < |patterns| ==> forall o :: o in owners ==> lib.glob(patterns[j], o.name) == None) ==>
      !OwnerMatches(lib, owners, patterns)
  {
    if o, pattern :| o in owners && pattern in patterns && lib.glob(pattern, o.name) == Some(true) {
      var i, j :| 0 <= i < |owners| && 0 <= j < |patterns| && owners[i] == o && patterns[j] == pattern;
      assert lib.glob(patterns[j], owners[i].name) == Some(true);
    }
    if i, j :| 0 <= i < |owners| && 0 <= j < |patterns| && lib.glob(patterns[j], owners[i].name) == Some(true) {
      assert owners[i] in owners && patterns[j] in patterns;
    }
  }

  /** An empty detector list means every detector. */
  lemma DetectorScope(p: Policy, detector: string)
    ensures p.detectors == [] ==> AppliesToDetector(p, detector)
    ensures p.detectors != [] ==> (AppliesToDetector(p, detector) <==> exists i :: 0 <= i < |p.detectors| && p.detectors[i] == detector)
  {
  }

  /** A schedule includes both its ends and nothing outside them. */
  lemma ScheduleIsClosed(p: Policy, input: FilterInput, now: int)
    requires p.schedule.Some?
    ensures SuppressApplies(p, input, now) <==>
      SuppressApplies(p.(schedule := None), input, now) && !(now < p.schedule.value.start) && !(p.schedule.value.end < now)
  {
  }

  lemma {:induction false} TrimmedMember(lib: Library, parts: seq<string>, d: string)
    ensures d in Trimmed(lib, parts) <==> d != "" && exists i :: 0 <= i < |parts| && lib.trim(parts[i]) == d
  {
    if parts != [] {
      var n := |parts| - 1;
      TrimmedMember(lib, parts[..n], d);
      if i :| 0 <= i < n && lib.trim(parts[..n][i]) == d {
        assert lib.trim(parts[i]) == d;
      }
      if i :| 0 <= i < |parts| && lib.trim(parts[i]) == d {
        assert i < n ==> lib.trim(parts[..n][i]) == d;
      }
    }
  }

  /** A detector is listed when it is not empty and some comma-separated part of the annotation trims to it. */
  lemma ListedDetectors(lib: Library, annotations: Labels, d: string)
    ensures d in ExcludedDetectors(lib, annotations) <==>
      && d != "" && annotations.Some? && "wormsign.io/exclude-detectors" in annotations.value
      && annotations.value["wormsign.io/exclude-detectors"] != ""
      && var parts := SplitCommas(annotations.value["wormsign.io/exclude-detectors"]);
         exists i :: 0 <= i < |parts| && lib.trim(parts[i]) == d
  {
    var text := Lookup(annotations, "wormsign.io/exclude-detectors");
    TrimmedMember(lib, SplitCommas(text), d);
    assert ExcludedDetectors(lib, annotations) == if text == "" then [] else Trimmed(lib, SplitCommas(text));
    if text != "" {
      assert annotations.Some? && "wormsign.io/exclude-detectors" in annotations.value;
      assert text == annotations.value["wormsign.io/exclude-detectors"];
    }
  }

  predicate MarkedTrue(annotations: Labels, key: string) {
    annotations.Some? && key in annotations.value && IsTrue(annotations.value[key])
  }

  /** The annotation levels by the names an operator writes. */
  lemma AnnotationLevels(lib: Library, cfg: GlobalConfig, input: FilterInput, hits: PolicyHits)
    ensures Level(lib, cfg, input, hits, 4) <==> MarkedTrue(input.namespace.annotations, "wormsign.io/suppress")
    ensures Level(lib, cfg, input, hits, 5) <==> MarkedTrue(input.resourceAnnotations, "wormsign.io/exclude")
    ensures Level(lib, cfg, input, hits, 6) <==>
      exists i :: 0 <= i < |input.owners| && MarkedTrue(input.owners[i].annotations, "wormsign.io/exclude")
  {
    if o :| o in input.owners && AnnotationTrue(o.annotations, ANNOTATION_EXCLUDE) {
      var i :| 0 <= i < |input.owners| && input.owners[i] == o;
      assert MarkedTrue(input.owners[i].annotations, "wormsign.io/exclude");
    }
    if i :| 0 <= i < |input.owners| && MarkedTrue(input.owners[i].annotations, "wormsign.io/exclude") {
      assert input.owners[i] in input.owners;
    }
  }

  // ----- the annotation list -----

  function JoinCommas(parts: seq<string>): string {
    if |parts| == 0 then "" else if |parts| == 1 then parts[0]
    else JoinCommas(parts[..|parts| - 1]) + "," + parts[|parts| - 1]
  }

  /** Splitting cuts at commas only: joining the parts gives the text back. */
  lemma {:induction false} SplitCommasInverse(s: string)
    ensures JoinCommas(SplitCommas(s)) == s
  {
    if s != [] {
      var init, ch := s[..|s| - 1], s[|s| - 1];
      SplitCommasInverse(init);
      assert s == init + [ch];
      var rest, parts := SplitCommas(init), SplitCommas(s);
      if ch == ',' {
        assert parts[..|parts| - 1] == rest;
      } else {
        JoinCommasExtend(rest, [ch]);
      }
    }
  }

  lemma {:induction false} JoinCommasSnoc(init: seq<string>, x: string)
    ensures JoinCommas(init + [x]) == if init == [] then x else JoinCommas(init) + "," + x
  {
    assert (init + [x])[..|init|] == init;
  }

  lemma {:induction false} JoinCommasExtend(parts: seq<string>, t: string)
    requires |parts| > 0
    ensures JoinCommas(parts[..|parts| - 1] + [parts[|parts| - 1] + t]) == JoinCommas(parts) + t
  {
    var init, last := parts[..|parts| - 1], parts[|parts| - 1];
    assert parts == init + [last];
    JoinCommasSnoc(init, last);
    JoinCommasSnoc(init, last + t);
    if init != [] {
      assert JoinCommas(init) + "," + (last + t) == JoinCommas(init) + "," + last + t;
    }
  }

  /** Splitting cuts at every comma. */
  lemma {:induction false} SplitCommasComplete(s: string, k: nat)
    requires k < |SplitCommas(s)|
    ensures ',' !in SplitCommas(s)[k]
  {
    if s != [] {
      var init := s[..|s| - 1];
      if k < |SplitCommas(init)| {
        SplitCommasComplete(init, k);
      }
    }
  }
}
