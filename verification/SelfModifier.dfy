/** The tiered path policy (`SelfModifier`): three ordered buckets of glob rules with exclusions,
    deciding whether an automated edit may touch a path. */
module SelfModifier {
  import opened Common
  import Glob

  datatype Rule = Rule(pathGlob: string, exclude: seq<string>, requiredReviewers: int)

  datatype Boundaries = Boundaries(immutable: seq<Rule>, humanReview: seq<Rule>, autonomousSafe: seq<Rule>)

  datatype Tier = Immutable | HumanReviewRequired | AutonomousSafe | Unknown

  datatype Verdict = Verdict(path: string, allowed: bool, tier: Tier, matchedRule: Option<string>, requiredReviewers: int)

  const HISTORY_CAP := 1000

  // ----- the policy, said on rule sets

  predicate Applies(rule: Rule, path: string) {
    && rule.pathGlob != ""
    && Glob.GlobMatch(path, rule.pathGlob)
    && forall ex :: ex in rule.exclude ==> !Glob.GlobMatch(path, ex)
  }

  predicate Covered(bucket: seq<Rule>, path: string) {
    exists rule :: rule in bucket && Applies(rule, path)
  }

  function TierOf(b: Boundaries, path: string): Tier {
    if Covered(b.immutable, path) then Immutable
    else if Covered(b.humanReview, path) then HumanReviewRequired
    else if Covered(b.autonomousSafe, path) then AutonomousSafe
    else Unknown
  }

  predicate Allowed(b: Boundaries, path: string) {
    TierOf(b, path) == AutonomousSafe
  }

  /** `rule` is the first one of the bucket that applies. */
  predicate IsFirst(bucket: seq<Rule>, path: string, rule: Rule) {
    exists i :: 0 <= i < |bucket| && bucket[i] == rule && Applies(rule, path)
                && forall j :: 0 <= j < i ==> !Applies(bucket[j], path)
  }

  function BucketOf(b: Boundaries, tier: Tier): seq<Rule> {
    match tier
    case Immutable => b.immutable
    case HumanReviewRequired => b.humanReview
    case AutonomousSafe => b.autonomousSafe
    case Unknown => []
  }

  /** What a verdict on a path has to say. */
  predicate IsVerdict(b: Boundaries, path: string, v: Verdict) {
    && v.path == path
    && v.tier == TierOf(b, path)
    && v.allowed == Allowed(b, path)
    && (if v.tier == Unknown then v.matchedRule == None && v.requiredReviewers == 1
        else exists rule :: rule in BucketOf(b, v.tier) && IsFirst(BucketOf(b, v.tier), path, rule)
                            && v.matchedRule == Some(rule.pathGlob)
                            && v.requiredReviewers == if v.tier == HumanReviewRequired then rule.requiredReviewers else 0)
  }

  // ----- what the policy promises

  /** The tier depends on which rules a bucket holds, not on their order or repetition; and more
      immutable or review rules, or fewer autonomous-safe ones, never turn a denial into an approval. */
  lemma MoreRulesNeverApprove(b: Boundaries, c: Boundaries, path: string)
    requires forall rule :: rule in b.immutable ==> rule in c.immutable
    requires forall rule :: rule in b.humanReview ==> rule in c.humanReview
    requires forall rule :: rule in c.autonomousSafe ==> rule in b.autonomousSafe
    ensures Allowed(c, path) ==> Allowed(b, path)
    ensures TierOf(b, path) == Immutable ==> TierOf(c, path) == Immutable
  {
    CoveredGrows(b.immutable, c.immutable, path);
    CoveredGrows(b.humanReview, c.humanReview, path);
    CoveredGrows(c.autonomousSafe, b.autonomousSafe, path);
  }

  lemma CoveredGrows(few: seq<Rule>, many: seq<Rule>, path: string)
    requires forall rule :: rule in few ==> rule in many
    ensures Covered(few, path) ==> Covered(many, path)
  {
    if rule :| rule in few && Applies(rule, path) {
      assert rule in many;
    }
  }

  /** Rule order within a bucket never changes a tier. */
  lemma RuleOrderIsIrrelevant(b: Boundaries, c: Boundaries, path: string)
    requires forall rule :: rule in b.immutable <==> rule in c.immutable
    requires forall rule :: rule in b.humanReview <==> rule in c.humanReview
    requires forall rule :: rule in b.autonomousSafe <==> rule in c.autonomousSafe
    ensures TierOf(b, path) == TierOf(c, path)
  {
    CoveredGrows(b.immutable, c.immutable, path);
    CoveredGrows(c.immutable, b.immutable, path);
    CoveredGrows(b.humanReview, c.humanReview, path);
    CoveredGrows(c.humanReview, b.humanReview, path);
    CoveredGrows(b.autonomousSafe, c.autonomousSafe, path);
    CoveredGrows(c.autonomousSafe, b.autonomousSafe, path);
  }

  // ----- the policy by the meaning of its globs

  /** The glob is matched on this path as it is meant: a compiled one on a path without line feed; a
      simple one unless `fnmatch` takes it past a slash. */
  predicate FaithfulOn(glob: string, path: string) {
    if Glob.HasMeta(glob) then Glob.InScope(glob) && '\n' !in path
    else '[' !in glob && (Glob.FnMeans(glob, path) ==> Glob.Slashes(path) <= Glob.Slashes(glob))
  }

  lemma MatchByMeaning(glob: string, path: string)
    requires FaithfulOn(glob, path)
    ensures Glob.GlobMatch(path, glob) <==> Glob.Means(glob, path)
  {
    if Glob.HasMeta(glob) {
      Glob.CompilePreservesMeaning(glob, path);
    } else {
      SimpleMatchByMeaningExactly(glob, path);
    }
  }

  /** For a simple glob the condition is exact. */
  lemma SimpleMatchByMeaningExactly(glob: string, path: string)
    requires Glob.IsSimple(glob)
    ensures (Glob.GlobMatch(path, glob) <==> Glob.Means(glob, path)) <==> FaithfulOn(glob, path)
  {
    Glob.SimpleGlobMeansExactly(glob, path);
    if Glob.FnMeans(glob, path) {
      Glob.FnmatchCountsSlashes(glob, path);
    }
  }

  /** What a rule says of a path: its glob means it and none of the exclusions does. */
  predicate RuleMeans(rule: Rule, path: string) {
    && rule.pathGlob != ""
    && Glob.Means(rule.pathGlob, path)
    && forall ex :: ex in rule.exclude ==> !Glob.Means(ex, path)
  }

  predicate FaithfulRule(rule: Rule, path: string) {
    FaithfulOn(rule.pathGlob, path) && forall ex :: ex in rule.exclude ==> FaithfulOn(ex, path)
  }

  /** A rule applies exactly as its globs say. */
  lemma RuleByMeaning(rule: Rule, path: string)
    requires FaithfulRule(rule, path)
    ensures Applies(rule, path) <==> RuleMeans(rule, path)
  {
    MatchByMeaning(rule.pathGlob, path);
    forall ex | ex in rule.exclude
      ensures Glob.GlobMatch(path, ex) <==> Glob.Means(ex, path)
    {
      MatchByMeaning(ex, path);
    }
  }

  predicate SomeRuleMeans(bucket: seq<Rule>, path: string) {
    exists rule :: rule in bucket && RuleMeans(rule, path)
  }

  lemma CoveredByMeaning(bucket: seq<Rule>, path: string)
    requires forall rule :: rule in bucket ==> FaithfulRule(rule, path)
    ensures Covered(bucket, path) <==> SomeRuleMeans(bucket, path)
  {
    forall rule | rule in bucket
      ensures Applies(rule, path) <==> RuleMeans(rule, path)
    {
      RuleByMeaning(rule, path);
    }
  }

  /** By what the globs mean: a path is allowed exactly when some autonomous-safe rule means it
      unexcluded and no immutable or review rule does; and of the buckets that mean it the strictest one
      gives the tier. */
  lemma AllowedExactly(b: Boundaries, path: string)
    requires forall rule :: rule in b.immutable + b.humanReview + b.autonomousSafe ==> FaithfulRule(rule, path)
    ensures Allowed(b, path)
       <==> SomeRuleMeans(b.autonomousSafe, path) && !SomeRuleMeans(b.immutable, path) && !SomeRuleMeans(b.humanReview, path)
    ensures TierOf(b, path) == Immutable <==> SomeRuleMeans(b.immutable, path)
    ensures TierOf(b, path) == HumanReviewRequired <==> SomeRuleMeans(b.humanReview, path) && !SomeRuleMeans(b.immutable, path)
    ensures TierOf(b, path) == Unknown
       <==> !SomeRuleMeans(b.immutable, path) && !SomeRuleMeans(b.humanReview, path) && !SomeRuleMeans(b.autonomousSafe, path)
  {
    CoveredByMeaning(b.immutable, path);
    CoveredByMeaning(b.humanReview, path);
    CoveredByMeaning(b.autonomousSafe, path);
  }

  predicate Literal(text: string) {
    forall c :: c in text ==> c !in "*?{["
  }

  /** A rule for the files of one directory with one ending, as `architecture/` and `.yaml`. */
  function FilesRule(directory: string, ending: string): Rule {
    Rule(directory + ("*" + ending), [], 0)
  }

  lemma FilesRuleMeans(directory: string, ending: string, name: string)
    requires Literal(directory) && Literal(ending) && '/' !in name
    ensures Glob.Means(FilesRule(directory, ending).pathGlob, directory + (name + ending))
  {
    var tail, file := "*" + ending, name + ending;
    assert file[..|name|] == name && file[|name|..] == ending && tail[1..] == ending;
    Glob.LiteralFront(ending, "", "");
    assert ending + "" == ending;
    if ending == "" {
      assert !Glob.StartsDoubleStar(tail);
    } else {
      assert tail[1] == ending[0] && ending[0] in ending;
    }
    assert Glob.Means(tail, file);
    Glob.LiteralFront(directory, tail, file);
  }

  lemma FilesRuleIsSimple(directory: string, ending: string)
    requires Literal(directory) && Literal(ending)
    ensures Glob.IsSimple(FilesRule(directory, ending).pathGlob)
  {
    var glob := directory + ("*" + ending);
    forall i | 0 <= i < |glob| && i != |directory|
      ensures glob[i] !in "*{["
    {
      if i < |directory| {
        assert glob[i] in directory;
      } else {
        assert glob[i] == ending[i - |directory| - 1] && glob[i] in ending;
      }
    }
    assert glob[|directory|] == '*';
  }

  /** A policy with file rules for two directories, of whatever depths: every file that the one is for is
      allowed, by the meaning of the globs. */
  lemma RulesOfTwoDepths(near: string, nearEnding: string, far: string, farEnding: string, name: string)
    requires Literal(near) && Literal(nearEnding) && Literal(far) && Literal(farEnding) && '/' !in name
    requires near != "" && far != "" && near[0] != far[0]
    ensures var b := Boundaries([], [], [FilesRule(near, nearEnding), FilesRule(far, farEnding)]);
      var path := near + (name + nearEnding);
      && (forall rule :: rule in b.immutable + b.humanReview + b.autonomousSafe ==> FaithfulRule(rule, path))
      && SomeRuleMeans(b.autonomousSafe, path) && Allowed(b, path)
  {
    var one, other := FilesRule(near, nearEnding), FilesRule(far, farEnding);
    var b, path := Boundaries([], [], [one, other]), near + (name + nearEnding);
    FilesRuleMeans(near, nearEnding, name);
    FilesRuleIsSimple(near, nearEnding);
    FilesRuleIsSimple(far, farEnding);
    Glob.SimpleGlobMeansExactly(one.pathGlob, path);
    assert far[0] in far && other.pathGlob[0] == far[0] && path[0] == near[0];
    assert !Glob.FnMeans(other.pathGlob, path);
    assert one in b.autonomousSafe && RuleMeans(one, path);
    AllowedExactly(b, path);
  }

  // ----- the object

  /** The verdicts of one batch, one for each path in order. */
  ghost predicate AreVerdicts(b: Boundaries, paths: seq<string>, vs: seq<Verdict>) {
    |vs| == |paths| && forall k :: 0 <= k < |vs| ==> IsVerdict(b, paths[k], vs[k])
  }

  class SelfModifier {
    const data: Boundaries
    var history: seq<Verdict>
    ghost var log: seq<Verdict>   // every verdict ever given

    /** The capped history always holds the last thousand verdicts. */
    ghost predicate Valid()
      reads this
    {
      history == LastN(log, HISTORY_CAP)
    }

    constructor (data: Boundaries)
      ensures Valid() && this.data == data && log == []
    {
      this.data := data;
      history, log := [], [];
    }

    method MatchRule(path: string, bucket: seq<Rule>) returns (found: Option<Rule>)
      ensures found.None? <==> !Covered(bucket, path)
      ensures found.Some? ==> found.value in bucket && IsFirst(bucket, path, found.value)
    {
      for i := 0 to |bucket|
        invariant forall j :: 0 <= j < i ==> !Applies(bucket[j], path)
      {
        var rule := bucket[i];
        if rule.pathGlob == "" {
          continue;
        }
        if Glob.GlobMatch(path, rule.pathGlob) {
          if exists ex :: ex in rule.exclude && Glob.GlobMatch(path, ex) {
            continue;
          }
          assert rule in bucket;
          return Some(rule);
        }
      }
      return None;
    }

    method Record(verdict: Verdict)
      requires Valid()
      modifies this
      ensures Valid() && log == old(log) + [verdict]
    {
      CappedAppend(log, verdict, HISTORY_CAP);
      history := history + [verdict];
      if |history| > HISTORY_CAP {
        history := history[|history| - HISTORY_CAP..];
      }
      log := log + [verdict];
    }

    method Check(path: string) returns (verdict: Verdict)
      requires Valid()
      modifies this
      ensures Valid() && IsVerdict(data, path, verdict)
      ensures verdict.allowed
         <==> Covered(data.autonomousSafe, path) && !Covered(data.immutable, path) && !Covered(data.humanReview, path)
      ensures log == old(log) + [verdict]
    {
      var imm := MatchRule(path, data.immutable);
      if imm.Some? {
        verdict := Verdict(path, false, Immutable, Some(imm.value.pathGlob), 0);
        Record(verdict);
        return;
      }
      var review := MatchRule(path, data.humanReview);
      if review.Some? {
        verdict := Verdict(path, false, HumanReviewRequired, Some(review.value.pathGlob), review.value.requiredReviewers);
        Record(verdict);
        return;
      }
      var auto := MatchRule(path, data.autonomousSafe);
      if auto.Some? {
        verdict := Verdict(path, true, AutonomousSafe, Some(auto.value.pathGlob), 0);
        Record(verdict);
        return;
      }
      verdict := Verdict(path, false, Unknown, None, 1);
      Record(verdict);
    }

    /** One verdict for each distinct path; every occurrence is checked and recorded. */
    method CheckMany(paths: seq<string>) returns (verdicts: map<string, Verdict>)
      requires Valid()
      modifies this
      ensures Valid()
      ensures verdicts.Keys == set p | p in paths
      ensures forall p :: p in verdicts ==> IsVerdict(data, p, verdicts[p])
      ensures old(log) <= log && AreVerdicts(data, paths, log[|old(log)|..])
    {
      verdicts := map[];
      for k := 0 to |paths|
        invariant Valid()
        invariant verdicts.Keys == set p | p in paths[..k]
        invariant forall p :: p in verdicts ==> IsVerdict(data, p, verdicts[p])
        invariant old(log) <= log && AreVerdicts(data, paths[..k], log[|old(log)|..])
      {
        var v := Check(paths[k]);
        verdicts := verdicts[paths[k] := v];
        assert paths[..k + 1] == paths[..k] + [paths[k]];
      }
      assert paths[..|paths|] == paths;
    }

    /** True exactly when every path is allowed. Checking stops at the first path denied, and only
        the paths up to it are recorded. */
    method ValidateProposal(paths: seq<string>) returns (ok: bool)
      requires Valid()
      modifies this
      ensures Valid()
      ensures ok <==> forall p :: p in paths ==> Allowed(data, p)
      ensures exists n: nat :: n <= |paths| && old(log) <= log && AreVerdicts(data, paths[..n], log[|old(log)|..])
                          && (forall k :: 0 <= k < n - 1 ==> Allowed(data, paths[k]))
                          && (if ok then n == |paths| else n > 0 && !Allowed(data, paths[n - 1]))
    {
      for k := 0 to |paths|
        invariant Valid()
        invariant forall j :: 0 <= j < k ==> Allowed(data, paths[j])
        invariant old(log) <= log && AreVerdicts(data, paths[..k], log[|old(log)|..])
      {
        var v := Check(paths[k]);
        assert paths[..k + 1] == paths[..k] + [paths[k]];
        assert AreVerdicts(data, paths[..k + 1], log[|old(log)|..]);
        if !v.allowed {
          assert paths[k] in paths && !Allowed(data, paths[k]);
          return false;
        }
      }
      return true;
    }
  }
}
