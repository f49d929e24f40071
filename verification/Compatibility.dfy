/** Evaluation of the detected add-ons against the compatibility matrix. */
module Compatibility {
  import opened Collections
  import opened Components
  import opened Inventory

  /** Version and range parsing: V stands for parsed versions, a range is a predicate on them. */
  datatype Semver<!V> = Semver(parse: string -> Option<V>, parseRange: string -> Option<V -> bool>)

  /** An add-on in addonRange supports the Kubernetes versions in k8sRange. */
  datatype CompatRule = CompatRule(addonRange: string, k8sRange: string)

  type Matrix = map<string, seq<CompatRule>>

  datatype AddonCompatibility = AddonCompatibility(
    name: string, version: string, status: AddonStatus, requiredVersion: string)

  /** Whether a version lies in a range; no version lies in one that does not parse. */
  predicate InRange<V>(sv: Semver<V>, range: string, v: V) {
    var r := sv.parseRange(range);
    r.Some? && r.value(v)
  }

  /** There is enough information for a verdict: the target and the add-on's version parse, and some rule
      is about that version. */
  ghost predicate Judgeable<V>(sv: Semver<V>, version: string, target: Option<V>, rules: seq<CompatRule>) {
    && target.Some? && version != "" && sv.parse(version).Some?
    && exists rule :: rule in rules && InRange(sv, rule.addonRange, sv.parse(version).value)
  }

  /** Some rule about the add-on's version supports the target. */
  ghost predicate Supported<V>(sv: Semver<V>, version: string, target: Option<V>, rules: seq<CompatRule>) {
    && Judgeable(sv, version, target, rules)
    && exists rule :: rule in rules && InRange(sv, rule.addonRange, sv.parse(version).value)
                      && InRange(sv, rule.k8sRange, target.value)
  }

  /** The status as a statement about the rules as a set: their order does not enter. */
  ghost function StatusOf<V>(sv: Semver<V>, version: string, target: Option<V>, rules: seq<CompatRule>): AddonStatus {
    if !Judgeable(sv, version, target, rules) then Unknown
    else if Supported(sv, version, target, rules) then Compatible
    else Incompatible
  }

  /** The add-on range of the first rule that supports the target, or the empty string. */
  function Recommended<V>(sv: Semver<V>, rules: seq<CompatRule>, target: V): string {
    if rules == [] then ""
    else if InRange(sv, rules[0].k8sRange, target) then rules[0].addonRange
    else Recommended(sv, rules[1..], target)
  }

  method RequiredAddonVersion<V>(sv: Semver<V>, rules: seq<CompatRule>, target: V) returns (range: string)
    ensures range == Recommended(sv, rules, target)
  {
    for i := 0 to |rules|
      invariant Recommended(sv, rules, target) == Recommended(sv, rules[i..], target)
    {
      assert rules[i..][1..] == rules[i + 1..];
      var kr := sv.parseRange(rules[i].k8sRange);
      if kr.Some? && kr.value(target) {
        return rules[i].addonRange;
      }
    }
    return "";
  }

  method EvaluateAddon<V>(sv: Semver<V>, a: DetectedAddon, target: Option<V>, rules: seq<CompatRule>)
    returns (res: AddonCompatibility)
    ensures res.name == a.name && res.version == a.version
    ensures res.status == StatusOf(sv, a.version, target, rules)
    ensures res.requiredVersion == if res.status == Incompatible then Recommended(sv, rules, target.value) else ""
  {
    res := AddonCompatibility(a.name, a.version, Unknown, "");
    if |rules| == 0 || target.None? {
      return;
    }
    var av := sv.parse(a.version);
    if a.version == "" || av.None? {
      return;
    }
    var applicable: seq<CompatRule> := [];
    for i := 0 to |rules|
      invariant forall rule :: rule in applicable <==> rule in rules[..i] && InRange(sv, rule.addonRange, av.value)
    {
      TakeNext(rules, i);
      var ar := sv.parseRange(rules[i].addonRange);
      if ar.None? {
        continue;
      }
      if ar.value(av.value) {
        applicable := applicable + [rules[i]];
      }
    }
    assert rules[..|rules|] == rules;
    if |applicable| == 0 {
      return;
    }
    assert applicable[0] in applicable;
    for i := 0 to |applicable|
      invariant res == AddonCompatibility(a.name, a.version, Unknown, "")
      invariant forall j :: 0 <= j < i ==> !InRange(sv, applicable[j].k8sRange, target.value)
    {
      var kr := sv.parseRange(applicable[i].k8sRange);
      if kr.None? {
        continue;
      }
      if kr.value(target.value) {
        assert applicable[i] in applicable;
        res := res.(status := Compatible);
        return;
      }
    }
    var required := RequiredAddonVersion(sv, rules, target.value);
    res := res.(status := Incompatible, requiredVersion := required);
  }

  function RulesFor(m: Matrix, name: string): seq<CompatRule> {
    if name in m then m[name] else []
  }

  predicate IsIncompatible(r: AddonCompatibility) {
    r.status == Incompatible
  }

  function IncompatibleOnes(results: seq<AddonCompatibility>): seq<AddonCompatibility> {
    Filter(IsIncompatible, results)
  }

  /** What is said of one add-on. */
  ghost predicate Judges<V>(sv: Semver<V>, a: DetectedAddon, target: Option<V>, m: Matrix, r: AddonCompatibility) {
    && r.name == a.name && r.version == a.version
    && r.status == StatusOf(sv, a.version, target, RulesFor(m, a.name))
    && r.requiredVersion
       == (if r.status == Incompatible then Recommended(sv, RulesFor(m, a.name), target.value) else "")
  }

  /** Rule r is about add-on version v: its range parses and holds it. */
  ghost predicate IsAbout<V>(sv: Semver<V>, rule: CompatRule, v: V) {
    sv.parseRange(rule.addonRange).Some? && sv.parseRange(rule.addonRange).value(v)
  }

  ghost predicate Supports<V>(sv: Semver<V>, rule: CompatRule, target: V) {
    sv.parseRange(rule.k8sRange).Some? && sv.parseRange(rule.k8sRange).value(target)
  }

  /** A verdict, each way round: unknown without enough information, compatible if a rule about the version
      supports the target, incompatible if there are rules about it and none does. */
  ghost predicate IsVerdict<V>(sv: Semver<V>, a: DetectedAddon, targetVersion: string, m: Matrix,
                               r: AddonCompatibility) {
    var target, v := sv.parse(targetVersion), sv.parse(a.version);
    var known := target.Some? && a.version != "" && v.Some? && a.name in m
                 && exists rule :: rule in m[a.name] && IsAbout(sv, rule, v.value);
    && r.name == a.name && r.version == a.version
    && (r.status.Unknown? <==> !known)
    && (r.status.Compatible? <==>
          known && exists rule :: rule in m[a.name] && IsAbout(sv, rule, v.value) && Supports(sv, rule, target.value))
    && (r.status.Incompatible? <==>
          known && forall rule :: rule in m[a.name] && IsAbout(sv, rule, v.value) ==> !Supports(sv, rule, target.value))
    && (r.requiredVersion != "" ==>
          r.status.Incompatible?
          && exists rule :: rule in m[a.name] && rule.addonRange == r.requiredVersion
                            && Supports(sv, rule, target.value))
  }

  lemma {:induction false} VerdictIs<V>(sv: Semver<V>, a: DetectedAddon, targetVersion: string, m: Matrix,
                                        r: AddonCompatibility)
    requires Judges(sv, a, sv.parse(targetVersion), m, r)
    ensures IsVerdict(sv, a, targetVersion, m, r)
  {
    var target, v := sv.parse(targetVersion), sv.parse(a.version);
    if target.Some? && v.Some? {
      forall rule: CompatRule ensures InRange(sv, rule.addonRange, v.value) <==> IsAbout(sv, rule, v.value) {
      }
      forall rule: CompatRule ensures InRange(sv, rule.k8sRange, target.value) <==> Supports(sv, rule, target.value) {
      }
      hide InRange, IsAbout, Supports;
      if r.requiredVersion != "" {
        RecommendedComesFromARule(sv, RulesFor(m, a.name), target.value);
      }
    }
  }

  method Evaluate<V>(sv: Semver<V>, addons: seq<DetectedAddon>, targetVersion: string, m: Matrix)
    returns (results: seq<AddonCompatibility>, incompatible: nat)
    ensures |results| == |addons|
    ensures forall i :: 0 <= i < |addons| ==> Judges(sv, addons[i], sv.parse(targetVersion), m, results[i])
    ensures forall i :: 0 <= i < |addons| ==> IsVerdict(sv, addons[i], targetVersion, m, results[i])
    ensures incompatible == |IncompatibleOnes(results)|
  {
    hide IsVerdict;
    var target := sv.parse(targetVersion);
    results, incompatible := [], 0;
    for i := 0 to |addons|
      invariant |results| == i
      invariant forall j :: 0 <= j < i ==> Judges(sv, addons[j], target, m, results[j])
      invariant forall j :: 0 <= j < i ==> IsVerdict(sv, addons[j], targetVersion, m, results[j])
      invariant incompatible == |IncompatibleOnes(results)|
    {
      var res := EvaluateAddon(sv, addons[i], target, RulesFor(m, addons[i].name));
      if res.status == Incompatible {
        incompatible := incompatible + 1;
      }
      VerdictIs(sv, addons[i], targetVersion, m, res);
      assert (results + [res])[..i] == results;
      results := results + [res];
    }
  }

  // ----- What the verdicts mean -----

  /** The status does not depend on the order or the repetition of the rules. */
  lemma {:induction false} StatusIgnoresRuleOrder<V>(sv: Semver<V>, version: string, target: Option<V>,
                                  rules: seq<CompatRule>, rules': seq<CompatRule>)
    requires forall rule :: rule in rules <==> rule in rules'
    ensures StatusOf(sv, version, target, rules) == StatusOf(sv, version, target, rules')
  {
    if sv.parse(version).Some? && target.Some? {
      var v, t := sv.parse(version).value, target.value;
      assert (exists rule :: rule in rules && InRange(sv, rule.addonRange, v))
        <==> (exists rule :: rule in rules' && InRange(sv, rule.addonRange, v));
      assert (exists rule :: rule in rules && InRange(sv, rule.addonRange, v) && InRange(sv, rule.k8sRange, t))
        <==> (exists rule :: rule in rules' && InRange(sv, rule.addonRange, v) && InRange(sv, rule.k8sRange, t));
    }
  }

  lemma {:induction false} RecommendedComesFromARule<V>(sv: Semver<V>, rules: seq<CompatRule>, target: V)
    requires Recommended(sv, rules, target) != ""
    ensures exists rule :: rule in rules && rule.addonRange == Recommended(sv, rules, target)
                           && InRange(sv, rule.k8sRange, target)
  {
    if InRange(sv, rules[0].k8sRange, target) {
      assert rules[0] in rules;
    } else {
      RecommendedComesFromARule(sv, rules[1..], target);
    }
  }

  /** The recommended range is consistent with the forward evaluation: the incompatible version is not in
      it, and every version in it is compatible with the same target. */
  lemma {:induction false} RecommendationIsSound<V(!new)>(sv: Semver<V>, version: string, target: Option<V>,
                                                          rules: seq<CompatRule>)
    requires StatusOf(sv, version, target, rules) == Incompatible
    requires Recommended(sv, rules, target.value) != ""
    ensures var range := Recommended(sv, rules, target.value);
            && !InRange(sv, range, sv.parse(version).value)
            && forall version' :: version' != "" && sv.parse(version').Some?
                                  && InRange(sv, range, sv.parse(version').value)
                                  ==> StatusOf(sv, version', target, rules) == Compatible
  {
    RecommendedComesFromARule(sv, rules, target.value);
  }

  /** A recommendation is missing exactly when the first rule that supports the target names no range, in
      particular when no rule supports it. */
  lemma {:induction false} NoRecommendation<V>(sv: Semver<V>, rules: seq<CompatRule>, target: V)
    ensures Recommended(sv, rules, target) == "" <==>
              || (forall rule :: rule in rules ==> !InRange(sv, rule.k8sRange, target))
              || (exists i :: 0 <= i < |rules| && InRange(sv, rules[i].k8sRange, target) && rules[i].addonRange == ""
                              && forall j :: 0 <= j < i ==> !InRange(sv, rules[j].k8sRange, target))
  {
    if rules != [] {
      assert rules[0] in rules;
      if !InRange(sv, rules[0].k8sRange, target) {
        NoRecommendation(sv, rules[1..], target);
        if i :| 0 <= i < |rules[1..]| && InRange(sv, rules[1..][i].k8sRange, target) && rules[1..][i].addonRange == ""
                && forall j :: 0 <= j < i ==> !InRange(sv, rules[1..][j].k8sRange, target) {
          assert rules[i + 1] == rules[1..][i];
          assert forall j :: 0 < j < i + 1 ==> rules[j] == rules[1..][j - 1];
        }
        if i :| 0 <= i < |rules| && InRange(sv, rules[i].k8sRange, target) && rules[i].addonRange == ""
                && forall j :: 0 <= j < i ==> !InRange(sv, rules[j].k8sRange, target) {
          assert rules[1..][i - 1] == rules[i];
          assert forall j :: 0 <= j < i - 1 ==> rules[1..][j] == rules[j + 1];
        }
      }
    }
  }

  /** Rule i is the first whose Kubernetes range holds the target. */
  predicate IsFirstSupporting<V>(sv: Semver<V>, rules: seq<CompatRule>, target: V, i: nat) {
    && i < |rules| && InRange(sv, rules[i].k8sRange, target)
    && forall j :: 0 <= j < i ==> !InRange(sv, rules[j].k8sRange, target)
  }

  predicate Parses<V>(sv: Semver<V>, range: string) {
    sv.parseRange(range).Some?
  }

  /** Some rule supports the target with a range that parses, and the recommendation does not parse. */
  ghost predicate MissesUsable<V>(sv: Semver<V>, rules: seq<CompatRule>, target: V) {
    && !Parses(sv, Recommended(sv, rules, target))
    && exists j :: 0 <= j < |rules| && InRange(sv, rules[j].k8sRange, target) && Parses(sv, rules[j].addonRange)
  }

  lemma {:induction false} FirstSupportingIsRecommended<V>(sv: Semver<V>, rules: seq<CompatRule>, target: V, i: nat)
    requires IsFirstSupporting(sv, rules, target, i)
    ensures Recommended(sv, rules, target) == rules[i].addonRange
  {
    if i > 0 {
      assert !InRange(sv, rules[0].k8sRange, target);
      FirstSupportingIsRecommended(sv, rules[1..], target, i - 1);
    }
  }

  /** The first supporting rule decides alone, its own range unread: the recommendation parses exactly when
      that rule's range does, and a usable one is missed exactly when it does not and a later supporting
      rule's does. */
  lemma {:induction false} UsableIsMissedIff<V>(sv: Semver<V>, rules: seq<CompatRule>, target: V, i: nat)
    requires IsFirstSupporting(sv, rules, target, i)
    ensures Recommended(sv, rules, target) == rules[i].addonRange
    ensures Parses(sv, Recommended(sv, rules, target)) <==> Parses(sv, rules[i].addonRange)
    ensures MissesUsable(sv, rules, target) <==>
              && !Parses(sv, rules[i].addonRange)
              && exists j :: i < j < |rules| && InRange(sv, rules[j].k8sRange, target)
                             && Parses(sv, rules[j].addonRange)
  {
    FirstSupportingIsRecommended(sv, rules, target, i);
  }

  /** Without a supporting rule nothing usable can be missed. */
  lemma {:induction false} MissingNeedsSupport<V>(sv: Semver<V>, rules: seq<CompatRule>, target: V)
    ensures MissesUsable(sv, rules, target) ==> exists i :: IsFirstSupporting(sv, rules, target, i)
  {
    if j :| 0 <= j < |rules| && InRange(sv, rules[j].k8sRange, target) {
      var i := FirstSupporting(sv, rules, target, j);
    }
  }

  lemma {:induction false} FirstSupporting<V>(sv: Semver<V>, rules: seq<CompatRule>, target: V, j: nat) returns (i: nat)
    requires j < |rules| && InRange(sv, rules[j].k8sRange, target)
    ensures IsFirstSupporting(sv, rules, target, i)
  {
    i := 0;
    while !InRange(sv, rules[i].k8sRange, target)
      invariant i <= j
      invariant forall k :: 0 <= k < i ==> !InRange(sv, rules[k].k8sRange, target)
      decreases j - i
    {
      i := i + 1;
    }
  }

  /** That does happen: a range that does not parse is recommended before a usable one. */
  lemma {:induction false} UnusableRangeIsRecommended()
    ensures var sv := Semver((s: string) => Some(s == "new"),
                             (s: string) => if s == "garbled" then None
                                            else Some((isNew: bool) => isNew == (s == ">=2" || s == ">=1.30")));
            var rules := [CompatRule("<2", "<1.30"), CompatRule("garbled", ">=1.30"), CompatRule(">=2", ">=1.30")];
            && StatusOf(sv, "old", Some(true), rules) == Incompatible
            && Recommended(sv, rules, true) == "garbled" && MissesUsable(sv, rules, true)
            && StatusOf(sv, "new", Some(true), rules) == Compatible
  {
    var sv := Semver((s: string) => Some(s == "new"),
                     (s: string) => if s == "garbled" then None
                                    else Some((isNew: bool) => isNew == (s == ">=2" || s == ">=1.30")));
    var rules := [CompatRule("<2", "<1.30"), CompatRule("garbled", ">=1.30"), CompatRule(">=2", ">=1.30")];
    assert InRange(sv, rules[0].addonRange, false) && !InRange(sv, rules[0].k8sRange, true);
    assert InRange(sv, rules[2].addonRange, true) && InRange(sv, rules[2].k8sRange, true);
    assert rules[0] in rules && rules[2] in rules;
    assert rules[1..] == [rules[1], rules[2]];
  }
}
