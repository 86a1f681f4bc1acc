/** The residual risk score of a verified change (`ResidualRiskCalculator.assess`). */
module ResidualRisk {
  import opened Common
  import SM = SelfModifier
  import opened VerificationGate

  datatype FactorName = VerificationFailed | ImmutablePath | HumanReviewPaths | UnknownPaths | LargeDiff | MultiFile | SensitiveModule

  datatype Factor = Factor(name: FactorName, weight: real)

  datatype Level = Low | Medium | High | Critical

  datatype Recommendation = AutoMerge | Review | Reject

  datatype Assessment = Assessment(score: real, level: Level, recommendation: Recommendation, factors: seq<Factor>)

  const VERIFICATION_FAIL_WEIGHT := 10.0
  const LARGE_DIFF_WEIGHT := 2.0
  const MULTI_FILE_WEIGHT := 1.5
  const SENSITIVE_MODULE_WEIGHT := 3.0
  const GOVERNANCE_REVIEW_WEIGHT := 2.0
  const GOVERNANCE_IMMUTABLE_WEIGHT := 10.0
  const LARGE_DIFF_THRESHOLD_LINES := 200
  const MULTI_FILE_THRESHOLD := 5

  const SENSITIVE_PATH_SUBSTRINGS: seq<string> := [
    "orchestrator/", "adapters/claude_planner", "adapters/multi_llm_planner", "adapters/openclaw_executor", "store/"
  ]

  /** `sub in text`. */
  predicate Contains(text: string, sub: string) {
    sub <= text || (text != "" && Contains(text[1..], sub))
  }

  predicate Sensitive(path: string) {
    exists sub :: sub in SENSITIVE_PATH_SUBSTRINGS && Contains(path, sub)
  }

  /** The distinct paths of a tier. */
  function PathsOf(b: SM.Boundaries, paths: seq<string>, tier: SM.Tier): set<string> {
    set p | p in paths && SM.TierOf(b, p) == tier
  }

  predicate SomeSensitive(paths: seq<string>) {
    exists p :: p in paths && Sensitive(p)
  }

  /** The sum of the factors before clamping, as a function of what the change is. */
  function RawScore(b: SM.Boundaries, failed: bool, paths: seq<string>, diffLines: int): real {
    (if failed then VERIFICATION_FAIL_WEIGHT else 0.0)
    + (if PathsOf(b, paths, SM.Immutable) != {} then GOVERNANCE_IMMUTABLE_WEIGHT else 0.0)
    + (if PathsOf(b, paths, SM.HumanReviewRequired) != {} then GOVERNANCE_REVIEW_WEIGHT else 0.0)
    + |PathsOf(b, paths, SM.Unknown)| as real
    + (if diffLines > LARGE_DIFF_THRESHOLD_LINES then LARGE_DIFF_WEIGHT else 0.0)
    + (if |paths| > MULTI_FILE_THRESHOLD then MULTI_FILE_WEIGHT else 0.0)
    + (if SomeSensitive(paths) then SENSITIVE_MODULE_WEIGHT else 0.0)
  }

  function Clamp(x: real): real {
    if x < 0.0 then 0.0 else if x > 10.0 then 10.0 else x
  }

  function LevelOf(score: real): Level {
    if score >= 8.0 then Critical else if score >= 5.0 then High else if score >= 2.0 then Medium else Low
  }

  function RecommendationOf(level: Level): Recommendation {
    match level
    case Critical => Reject
    case High => Review
    case Medium => Review
    case Low => AutoMerge
  }

  /** What an assessment of the change has to be. */
  predicate IsAssessment(b: SM.Boundaries, failed: bool, paths: seq<string>, diffLines: int, a: Assessment) {
    && a.score == Clamp(RawScore(b, failed, paths, diffLines))
    && a.score == Clamp(Weights(a.factors))
    && a.factors == Listing(ProfileOf(b, failed, paths, diffLines), |CATEGORIES|)
    && a.level == LevelOf(a.score)
    && a.recommendation == RecommendationOf(a.level)
  }

  /** What the score looks at. */
  datatype Profile = Profile(failed: bool, immutable: nat, review: nat, unknown: nat,
                             largeDiff: bool, multiFile: bool, sensitive: bool)
  {
    predicate Applies(name: FactorName) {
      match name
      case VerificationFailed => failed
      case ImmutablePath => immutable > 0
      case HumanReviewPaths => review > 0
      case UnknownPaths => unknown > 0
      case LargeDiff => largeDiff
      case MultiFile => multiFile
      case SensitiveModule => sensitive
    }

    function Weight(name: FactorName): real {
      match name
      case VerificationFailed => VERIFICATION_FAIL_WEIGHT
      case ImmutablePath => GOVERNANCE_IMMUTABLE_WEIGHT
      case HumanReviewPaths => GOVERNANCE_REVIEW_WEIGHT
      case UnknownPaths => unknown as real
      case LargeDiff => LARGE_DIFF_WEIGHT
      case MultiFile => MULTI_FILE_WEIGHT
      case SensitiveModule => SENSITIVE_MODULE_WEIGHT
    }
  }

  function ProfileOf(b: SM.Boundaries, failed: bool, paths: seq<string>, diffLines: int): Profile {
    Profile(failed, |PathsOf(b, paths, SM.Immutable)|, |PathsOf(b, paths, SM.HumanReviewRequired)|,
            |PathsOf(b, paths, SM.Unknown)|, diffLines > LARGE_DIFF_THRESHOLD_LINES,
            |paths| > MULTI_FILE_THRESHOLD, SomeSensitive(paths))
  }

  /** The order in which the categories are looked at. */
  const CATEGORIES: seq<FactorName> :=
    [VerificationFailed, ImmutablePath, HumanReviewPaths, UnknownPaths, LargeDiff, MultiFile, SensitiveModule]

  /** The factors that apply among the first `k` categories, in order. */
  function Listing(p: Profile, k: nat): seq<Factor>
    requires k <= |CATEGORIES|
  {
    if k == 0 then []
    else
      var name := CATEGORIES[k - 1];
      if p.Applies(name) then Listing(p, k - 1) + [Factor(name, p.Weight(name))] else Listing(p, k - 1)
  }

  /** The points of one category. */
  function Points(p: Profile, name: FactorName): real {
    if p.Applies(name) then p.Weight(name) else 0.0
  }

  /** The points of the first `k` categories. */
  function PointsUpTo(p: Profile, k: nat): real
    requires k <= |CATEGORIES|
  {
    if k == 0 then 0.0 else PointsUpTo(p, k - 1) + Points(p, CATEGORIES[k - 1])
  }

  function Weights(factors: seq<Factor>): real {
    if factors == [] then 0.0 else Weights(factors[..|factors| - 1]) + factors[|factors| - 1].weight
  }

  predicate OccursAt(text: string, sub: string, i: nat) {
    i + |sub| <= |text| && text[i..i + |sub|] == sub
  }

  /** The recursive search finds every occurrence, and nothing else. */
  lemma {:induction false} ContainsExactly(text: string, sub: string)
    ensures Contains(text, sub) <==> exists i :: OccursAt(text, sub, i)
    decreases |text|
  {
    if sub <= text {
      assert OccursAt(text, sub, 0);
    }
    if text != "" {
      var rest := text[1..];
      ContainsExactly(rest, sub);
      forall i: nat
        ensures OccursAt(rest, sub, i) <==> OccursAt(text, sub, i + 1)
      {
        assert i + |sub| <= |rest| ==> rest[i..i + |sub|] == text[i + 1..i + 1 + |sub|];
      }
      if i: nat :| OccursAt(text, sub, i) {
        assert i > 0 ==> OccursAt(rest, sub, i - 1);
      }
    }
  }

  // ----- what the score promises

  /** Auto-merge is recommended exactly when verification did not fail, nothing is immutable, up for
      review or sensitive, the diff is not large, and the unknown paths and many files stay below two. */
  lemma AutoMergeExactlyWhen(b: SM.Boundaries, failed: bool, paths: seq<string>, diffLines: int, a: Assessment)
    requires IsAssessment(b, failed, paths, diffLines, a)
    ensures a.recommendation == AutoMerge
       <==> && !failed && diffLines <= LARGE_DIFF_THRESHOLD_LINES
            && (forall p :: p in paths ==> SM.TierOf(b, p) != SM.Immutable && SM.TierOf(b, p) != SM.HumanReviewRequired && !Sensitive(p))
            && |PathsOf(b, paths, SM.Unknown)| as real + (if |paths| > MULTI_FILE_THRESHOLD then MULTI_FILE_WEIGHT else 0.0) < 2.0
  {
    assert forall p :: p in paths && SM.TierOf(b, p) == SM.Immutable ==> p in PathsOf(b, paths, SM.Immutable);
    assert forall p :: p in paths && SM.TierOf(b, p) == SM.HumanReviewRequired ==> p in PathsOf(b, paths, SM.HumanReviewRequired);
  }

  /** The level and the recommendation, from the change itself: critical means a failed verification, an
      immutable path or eight points of the rest; high five of them, medium two. */
  lemma LevelExactlyWhen(b: SM.Boundaries, failed: bool, paths: seq<string>, diffLines: int, a: Assessment)
    requires IsAssessment(b, failed, paths, diffLines, a)
    ensures var review := exists p :: p in paths && SM.TierOf(b, p) == SM.HumanReviewRequired;
      var points := |PathsOf(b, paths, SM.Unknown)| as real + (if review then 2.0 else 0.0) + (if diffLines > 200 then 2.0 else 0.0)
                    + (if |paths| > 5 then 1.5 else 0.0) + (if SomeSensitive(paths) then 3.0 else 0.0);
      var critical := failed || (exists p :: p in paths && SM.TierOf(b, p) == SM.Immutable) || points >= 8.0;
      && (a.level == Critical <==> critical)
      && (a.level == High <==> !critical && points >= 5.0)
      && (a.level == Medium <==> !critical && 2.0 <= points < 5.0)
      && (a.recommendation == Reject <==> critical)
      && (a.recommendation == AutoMerge <==> !critical && points < 2.0)
  {
    assert forall p :: p in paths && SM.TierOf(b, p) == SM.Immutable ==> p in PathsOf(b, paths, SM.Immutable);
    assert forall p :: p in paths && SM.TierOf(b, p) == SM.HumanReviewRequired ==> p in PathsOf(b, paths, SM.HumanReviewRequired);
    assert forall p :: p in PathsOf(b, paths, SM.Immutable) ==> p in paths;
    assert forall p :: p in PathsOf(b, paths, SM.HumanReviewRequired) ==> p in paths;
  }

  /** A failed verification or a single immutable path rejects the change, whatever else it is. */
  lemma ImmutableOrFailedIsRejected(b: SM.Boundaries, failed: bool, paths: seq<string>, diffLines: int, a: Assessment)
    requires IsAssessment(b, failed, paths, diffLines, a)
    requires failed || exists p :: p in paths && SM.TierOf(b, p) == SM.Immutable
    ensures a.score == 10.0 && a.recommendation == Reject
  {
    if !failed {
      var p :| p in paths && SM.TierOf(b, p) == SM.Immutable;
      assert p in PathsOf(b, paths, SM.Immutable);
    }
  }

  /** More paths never lower the score. */
  lemma ScoreGrowsWithPaths(b: SM.Boundaries, failed: bool, few: seq<string>, many: seq<string>, diffLines: int)
    requires multiset(few) <= multiset(many)
    ensures Clamp(RawScore(b, failed, few, diffLines)) <= Clamp(RawScore(b, failed, many, diffLines))
  {
    MorePaths(few, many);
    PathsGrow(b, few, many, SM.Immutable);
    PathsGrow(b, few, many, SM.HumanReviewRequired);
    PathsGrow(b, few, many, SM.Unknown);
  }

  lemma MorePaths(few: seq<string>, many: seq<string>)
    requires multiset(few) <= multiset(many)
    ensures |few| <= |many|
    ensures forall p :: p in few ==> p in many
  {
    assert multiset(many) == multiset(few) + (multiset(many) - multiset(few));
    assert |multiset(few)| == |few| && |multiset(many)| == |many|;
    forall p | p in few
      ensures p in many
    {
      assert p in multiset(few) && p in multiset(many);
    }
  }

  lemma PathsGrow(b: SM.Boundaries, few: seq<string>, many: seq<string>, tier: SM.Tier)
    requires forall p :: p in few ==> p in many
    ensures PathsOf(b, few, tier) <= PathsOf(b, many, tier)
    ensures |PathsOf(b, few, tier)| <= |PathsOf(b, many, tier)|
  {
    SubsetSize(PathsOf(b, few, tier), PathsOf(b, many, tier));
  }

  lemma SubsetSize(a: set<string>, b: set<string>)
    requires a <= b
    ensures |a| <= |b|
  {
    assert b == a + (b - a);
  }

  /** The score does not depend on the order of the paths. */
  lemma ScoreIgnoresOrder(b: SM.Boundaries, failed: bool, paths: seq<string>, shuffled: seq<string>, diffLines: int)
    requires multiset(paths) == multiset(shuffled)
    ensures Clamp(RawScore(b, failed, paths, diffLines)) == Clamp(RawScore(b, failed, shuffled, diffLines))
  {
    ScoreGrowsWithPaths(b, failed, paths, shuffled, diffLines);
    ScoreGrowsWithPaths(b, failed, shuffled, paths, diffLines);
  }

  /** More rules can lower it: declaring an unknown path autonomous-safe takes its point away. */
  lemma RulesCanLowerTheScore(b: SM.Boundaries, c: SM.Boundaries, path: string)
    requires SM.TierOf(b, path) == SM.Unknown && SM.TierOf(c, path) == SM.AutonomousSafe
    ensures RawScore(c, false, [path], 0) == RawScore(b, false, [path], 0) - 1.0
  {
    assert PathsOf(b, [path], SM.Unknown) == {path} && PathsOf(c, [path], SM.Unknown) == {};
    assert PathsOf(b, [path], SM.Immutable) == {} && PathsOf(c, [path], SM.Immutable) == {};
    assert PathsOf(b, [path], SM.HumanReviewRequired) == {} && PathsOf(c, [path], SM.HumanReviewRequired) == {};
  }

  // ----- the calculation

  function CountTier(verdicts: map<string, SM.Verdict>, tier: SM.Tier): nat {
    |set p | p in verdicts && verdicts[p].tier == tier|
  }

  method SensitiveHits(paths: seq<string>) returns (hits: seq<string>)
    ensures forall p :: p in hits <==> p in paths && Sensitive(p)
  {
    hits := [];
    for i := 0 to |paths|
      invariant forall p :: p in hits <==> p in paths[..i] && Sensitive(p)
    {
      assert paths[..i + 1] == paths[..i] + [paths[i]];
      for k := 0 to |SENSITIVE_PATH_SUBSTRINGS|
        invariant forall p :: p in hits <==> p in paths[..i] && Sensitive(p)
        invariant forall j :: 0 <= j < k ==> !Contains(paths[i], SENSITIVE_PATH_SUBSTRINGS[j])
      {
        if Contains(paths[i], SENSITIVE_PATH_SUBSTRINGS[k]) {
          hits := hits + [paths[i]];
          break;
        }
      }
    }
    assert paths[..|paths|] == paths;
  }

  lemma CountsAgree(b: SM.Boundaries, paths: seq<string>, verdicts: map<string, SM.Verdict>, tier: SM.Tier)
    requires verdicts.Keys == set p | p in paths
    requires forall p :: p in verdicts ==> SM.IsVerdict(b, p, verdicts[p])
    ensures CountTier(verdicts, tier) == |PathsOf(b, paths, tier)|
  {
    assert (set p | p in verdicts && verdicts[p].tier == tier) == PathsOf(b, paths, tier);
  }

  lemma WeightsAppend(factors: seq<Factor>, f: Factor)
    ensures Weights(factors + [f]) == Weights(factors) + f.weight
  {
    assert (factors + [f])[..|factors|] == factors;
  }

  lemma {:induction false} ListingWeighs(p: Profile, k: nat)
    requires k <= |CATEGORIES|
    ensures Weights(Listing(p, k)) == PointsUpTo(p, k)
  {
    if k > 0 {
      ListingWeighs(p, k - 1);
      WeightsAppend(Listing(p, k - 1), Factor(CATEGORIES[k - 1], p.Weight(CATEGORIES[k - 1])));
    }
  }

  /** A factor is listed exactly when its category applies, with its weight. */
  lemma {:induction false} ListedExactlyWhenApplies(p: Profile, k: nat, f: Factor)
    requires k <= |CATEGORIES|
    ensures f in Listing(p, k) <==> f.name in CATEGORIES[..k] && p.Applies(f.name) && f.weight == p.Weight(f.name)
    ensures |Listing(p, k)| <= k
  {
    if k > 0 {
      ListedExactlyWhenApplies(p, k - 1, f);
      assert CATEGORIES[..k] == CATEGORIES[..k - 1] + [CATEGORIES[k - 1]];
    }
  }

  lemma AllPoints(p: Profile)
    ensures PointsUpTo(p, |CATEGORIES|)
         == Points(p, VerificationFailed) + Points(p, ImmutablePath) + Points(p, HumanReviewPaths) + Points(p, UnknownPaths)
            + Points(p, LargeDiff) + Points(p, MultiFile) + Points(p, SensitiveModule)
  {
    assert PointsUpTo(p, 1) == Points(p, VerificationFailed);
    assert PointsUpTo(p, 2) == PointsUpTo(p, 1) + Points(p, ImmutablePath);
    assert PointsUpTo(p, 3) == PointsUpTo(p, 2) + Points(p, HumanReviewPaths);
    assert PointsUpTo(p, 5) == PointsUpTo(p, 3) + Points(p, UnknownPaths) + Points(p, LargeDiff);
    assert PointsUpTo(p, 7) == PointsUpTo(p, 5) + Points(p, MultiFile) + Points(p, SensitiveModule);
  }

  /** Category by category the points are the formula of the raw score. */
  lemma PointsAreRawScore(b: SM.Boundaries, failed: bool, paths: seq<string>, diffLines: int)
    ensures PointsUpTo(ProfileOf(b, failed, paths, diffLines), |CATEGORIES|) == RawScore(b, failed, paths, diffLines)
  {
    AllPoints(ProfileOf(b, failed, paths, diffLines));
  }

  /** One category: its factor joins the list, and its weight the score, when it applies. */
  method AddFactor(p: Profile, k: nat, factors: seq<Factor>, score: real) returns (longer: seq<Factor>, higher: real)
    requires k < |CATEGORIES| && factors == Listing(p, k) && score == PointsUpTo(p, k)
    ensures longer == Listing(p, k + 1) && higher == PointsUpTo(p, k + 1)
  {
    longer, higher := factors, score;
    var f := Factor(CATEGORIES[k], p.Weight(CATEGORIES[k]));
    if p.Applies(f.name) {
      longer, higher := factors + [f], score + f.weight;
    }
  }

  method Score(p: Profile) returns (factors: seq<Factor>, score: real)
    ensures factors == Listing(p, |CATEGORIES|) && score == PointsUpTo(p, |CATEGORIES|)
  {
    factors, score := [], 0.0;
    factors, score := AddFactor(p, 0, factors, score);
    factors, score := AddFactor(p, 1, factors, score);
    factors, score := AddFactor(p, 2, factors, score);
    factors, score := AddFactor(p, 3, factors, score);
    factors, score := AddFactor(p, 4, factors, score);
    factors, score := AddFactor(p, 5, factors, score);
    factors, score := AddFactor(p, 6, factors, score);
  }

  method Assess(modifier: SM.SelfModifier, verification: Option<Report>, paths: seq<string>, diffLines: int)
    returns (a: Assessment)
    requires modifier.Valid()
    modifies modifier
    ensures modifier.Valid()
    ensures IsAssessment(modifier.data, verification.Some? && !verification.value.Passed(), paths, diffLines, a)
  {
    var failed := verification.Some? && !verification.value.Passed();
    var p := LookAt(modifier, failed, paths, diffLines);
    var factors, raw := Score(p);
    PointsAreRawScore(modifier.data, failed, paths, diffLines);
    ListingWeighs(p, |CATEGORIES|);
    var score := Clamp(raw);
    a := Assessment(score, LevelOf(score), RecommendationOf(LevelOf(score)), factors);
  }

  /** The governance check on the paths, the sizes and the sensitive hits. */
  method LookAt(modifier: SM.SelfModifier, failed: bool, paths: seq<string>, diffLines: int) returns (p: Profile)
    requires modifier.Valid()
    modifies modifier
    ensures modifier.Valid() && p == ProfileOf(modifier.data, failed, paths, diffLines)
  {
    var verdicts := modifier.CheckMany(paths);
    CountsAgree(modifier.data, paths, verdicts, SM.Immutable);
    CountsAgree(modifier.data, paths, verdicts, SM.HumanReviewRequired);
    CountsAgree(modifier.data, paths, verdicts, SM.Unknown);
    var hits := SensitiveHits(paths);
    assert hits != [] ==> hits[0] in hits;
    p := Profile(failed, CountTier(verdicts, SM.Immutable), CountTier(verdicts, SM.HumanReviewRequired),
                 CountTier(verdicts, SM.Unknown), diffLines > LARGE_DIFF_THRESHOLD_LINES,
                 |paths| > MULTI_FILE_THRESHOLD, hits != []);
  }
}
