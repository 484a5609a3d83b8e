/**
  Approval policy: rule ranking and evaluation (reuleauxcoder/domain/approval_engine.py:42-151),
  session grants (reuleauxcoder/domain/approval.py:144-176) and the scopes offered for
  file grants (reuleauxcoder/domain/approval_subjects.py:71-113).
 */
module ApprovalPolicy {
  import opened Prelude

  datatype Action = Allow | Warn | RequireApproval | Deny

  datatype Rule = Rule(
    toolName: Option<string>, toolSource: Option<string>, mcpServer: Option<string>,
    effectClass: Option<string>, profile: Option<string>, pattern: Option<string>,
    scopeKey: Option<string>, action: Action)

  /** The part of a tool call (or approval request) that policy looks at. */
  datatype Context = Context(
    toolName: string, toolSource: string, mcpServer: Option<string>, effectClass: Option<string>,
    profile: Option<string>, subjects: seq<string>, scopeKey: Option<string>)

  datatype Config = Config(rules: seq<Rule>, defaultMode: Action)

  datatype PolicyMatch = PolicyMatch(action: Action, rule: Option<Rule>)

  // ----- Matching -----

  function StripSlashes(s: string): string {
    if s != "" && s[|s| - 1] == '/' then StripSlashes(s[..|s| - 1]) else s
  }

  const SUBTREE := "/**"

  /** The directory of a subtree pattern. */
  function Base(pattern: string): string
    requires EndsWith(pattern, SUBTREE)
  {
    StripSlashes(pattern[..|pattern| - |SUBTREE|])
  }

  predicate PatternMatches(pattern: Option<string>, subject: string) {
    if pattern == None || pattern.value == "*" then true
    else if EndsWith(pattern.value, SUBTREE) then
      subject == Base(pattern.value) || Base(pattern.value) + "/" <= subject
    else subject == pattern.value
  }

  predicate Fits(wanted: Option<string>, actual: Option<string>) {
    wanted == None || wanted == actual
  }

  predicate DimensionsMatch(rule: Rule, c: Context) {
    && Fits(rule.toolName, Some(c.toolName))
    && Fits(rule.toolSource, Some(c.toolSource))
    && Fits(rule.mcpServer, c.mcpServer)
    && Fits(rule.effectClass, c.effectClass)
    && Fits(rule.profile, c.profile)
    && Fits(rule.scopeKey, c.scopeKey)
  }

  /** A rule applies to one subject; a call without subjects is only met by rules without a pattern. */
  predicate Applies(rule: Rule, c: Context, subject: Option<string>) {
    && DimensionsMatch(rule, c)
    && if subject == None then rule.pattern == None else PatternMatches(rule.pattern, subject.value)
  }

  function Weight(dimension: Option<string>, points: nat): nat {
    if dimension == None then 0 else points
  }

  function Specificity(rule: Rule): nat {
    Weight(rule.toolSource, 1) + Weight(rule.mcpServer, 2) + Weight(rule.toolName, 4)
    + Weight(rule.effectClass, 1) + Weight(rule.profile, 1)
    + (if rule.pattern == None then 0
       else if rule.pattern.value == "*" then 1
       else if EndsWith(rule.pattern.value, SUBTREE) then 2
       else 3)
    + Weight(rule.scopeKey, 2)
  }

  function Fallback(config: Config, c: Context): Action {
    if c.effectClass == Some("read_only_internal") || c.effectClass == Some("control_plane_internal") then Allow
    else config.defaultMode
  }

  // ----- What specificity measures -----

  /** `a` asks for all that `b` asks for. */
  predicate AtLeast(a: Option<string>, b: Option<string>) {
    b == None || a == b
  }

  datatype PatternKind = Unrestricted | Star | Subtree | Exact

  function Kind(pattern: Option<string>): PatternKind {
    if pattern == None then Unrestricted
    else if pattern.value == "*" then Star
    else if EndsWith(pattern.value, SUBTREE) then Subtree
    else Exact
  }

  /** What the first pattern meets, the second one meets; a call without subjects only meets no pattern at all. */
  predicate PatternWithin(a: Option<string>, b: Option<string>) {
    match Kind(b)
    case Unrestricted => true
    case Star => a.Some?
    case Subtree =>
      || (Kind(a).Subtree? && (Base(b.value) == Base(a.value) || Base(b.value) + "/" <= Base(a.value)))
      || (Kind(a).Exact? && PatternMatches(b, a.value))
    case Exact => a == b
  }

  predicate Within(a: Rule, b: Rule) {
    && AtLeast(a.toolName, b.toolName) && AtLeast(a.toolSource, b.toolSource)
    && AtLeast(a.mcpServer, b.mcpServer) && AtLeast(a.effectClass, b.effectClass)
    && AtLeast(a.profile, b.profile) && AtLeast(a.scopeKey, b.scopeKey)
    && PatternWithin(a.pattern, b.pattern)
  }

  lemma WithinMeetsLess(a: Rule, b: Rule, c: Context, subject: Option<string>)
    requires Within(a, b) && Applies(a, c, subject)
    ensures Applies(b, c, subject)
  {
    if subject.Some? && Kind(a.pattern).Subtree? && Kind(b.pattern).Subtree? {
      BelowBase(Base(b.pattern.value), Base(a.pattern.value), subject.value);
    }
  }

  lemma BelowBase(outer: string, inner: string, subject: string)
    requires outer == inner || outer + "/" <= inner
    requires subject == inner || inner + "/" <= subject
    ensures subject == outer || outer + "/" <= subject
  {
  }

  /** A text unlike the one to avoid, and the one wanted if there is one. */
  function Unlike(wanted: Option<string>, avoided: string): string {
    if wanted.Some? then wanted.value else avoided + "x"
  }

  /** A call that `a` meets, with other values where `a` leaves them open and `b` does not. */
  function Beyond(a: Rule, b: Rule): Context {
    Context(Unlike(a.toolName, OrEmpty(b.toolName)), Unlike(a.toolSource, OrEmpty(b.toolSource)),
            Some(Unlike(a.mcpServer, OrEmpty(b.mcpServer))), Some(Unlike(a.effectClass, OrEmpty(b.effectClass))),
            Some(Unlike(a.profile, OrEmpty(b.profile))), [], Some(Unlike(a.scopeKey, OrEmpty(b.scopeKey))))
  }

  function OrEmpty(s: Option<string>): string {
    if s.None? then "" else s.value
  }

  /** A subject that `a` meets and `b` does not, if there is one. */
  function BeyondPattern(a: Option<string>, b: Option<string>): Option<string> {
    match Kind(a)
    case Unrestricted => None
    case Star => Some((if Kind(b).Subtree? then Base(b.value) else OrEmpty(b)) + "x")
    case Subtree => Some(if Kind(b).Exact? && b.value == Base(a.value) then Base(a.value) + "/" else Base(a.value))
    case Exact => Some(a.value)
  }

  lemma BeyondPatternEscapes(a: Option<string>, b: Option<string>)
    requires !PatternWithin(a, b)
    ensures var s := BeyondPattern(a, b);
      && (if s == None then a == None else PatternMatches(a, s.value))
      && !(if s == None then b == None else PatternMatches(b, s.value))
  {
    if Kind(a).Star? && Kind(b).Subtree? {
      var base := Base(b.value);
      assert (base + "x")[|base|] == 'x' && (base + "/")[|base|] == '/';
    }
  }

  lemma SomeCallMet(a: Rule, b: Rule)
    ensures DimensionsMatch(a, Beyond(a, b))
    ensures DimensionsMatch(b, Beyond(a, b)) ==>
      && AtLeast(a.toolName, b.toolName) && AtLeast(a.toolSource, b.toolSource)
      && AtLeast(a.mcpServer, b.mcpServer) && AtLeast(a.effectClass, b.effectClass)
      && AtLeast(a.profile, b.profile) && AtLeast(a.scopeKey, b.scopeKey)
  {
  }

  /** `Within` is exactly what it should be: every call that meets `a` meets `b`. */
  lemma WithinIff(a: Rule, b: Rule)
    ensures Within(a, b) <==> forall c, subject :: Applies(a, c, subject) ==> Applies(b, c, subject)
  {
    if Within(a, b) {
      forall c, subject | Applies(a, c, subject) ensures Applies(b, c, subject) {
        WithinMeetsLess(a, b, c, subject);
      }
    } else {
      var c := Beyond(a, b);
      SomeCallMet(a, b);
      var subject := BeyondPattern(a.pattern, if PatternWithin(a.pattern, b.pattern) then a.pattern else b.pattern);
      if !PatternWithin(a.pattern, b.pattern) {
        BeyondPatternEscapes(a.pattern, b.pattern);
      }
      assert Applies(a, c, subject) && !Applies(b, c, subject);
    }
  }

  /**
    Among rules of which one meets no more calls than the other, the narrower one is more
    specific exactly if it names a further dimension or a narrower kind of pattern. A
    subtree inside a subtree is not.
   */
  lemma NarrowerOutranksIff(a: Rule, b: Rule)
    requires forall c, subject :: Applies(a, c, subject) ==> Applies(b, c, subject)
    ensures Specificity(a) >= Specificity(b)
    ensures Specificity(a) > Specificity(b) <==>
      a.(pattern := b.pattern, action := b.action) != b || Kind(a.pattern) != Kind(b.pattern)
  {
    WithinIff(a, b);
  }

  /** What a rule that names one thing only is worth. */
  lemma WorthOfOne(text: string)
    ensures Specificity(Rule(None, None, None, None, None, None, None, Allow)) == 0
    ensures Specificity(Rule(Some(text), None, None, None, None, None, None, Allow)) == 4
    ensures Specificity(Rule(None, Some(text), None, None, None, None, None, Allow)) == 1
    ensures Specificity(Rule(None, None, Some(text), None, None, None, None, Allow)) == 2
    ensures Specificity(Rule(None, None, None, Some(text), None, None, None, Allow)) == 1
    ensures Specificity(Rule(None, None, None, None, Some(text), None, None, Allow)) == 1
    ensures Specificity(Rule(None, None, None, None, None, Some(text), None, Allow)) ==
      match Kind(Some(text)) case Star => 1 case Subtree => 2 case _ => 3
    ensures Specificity(Rule(None, None, None, None, None, None, Some(text), Allow)) == 2
  {
  }

  /** What a rule is worth is the sum of what it names. */
  lemma WorthAdds(rule: Rule)
    ensures Specificity(rule) ==
      Specificity(rule.(toolName := None, mcpServer := None, scopeKey := None))
      + Specificity(rule.(toolSource := None, effectClass := None, profile := None, pattern := None))
  {
  }

  function PatternRule(pattern: string, action: Action): Rule {
    Rule(None, None, None, None, None, Some(pattern), None, action)
  }

  /** A rule on a directory inside another one does not override an earlier rule on the outer one. */
  lemma InnerSubtreeLoses(c: Context)
    ensures var allow, deny := PatternRule("a/**", Allow), PatternRule("a/b/**", Deny);
      && Within(deny, allow) && !Within(allow, deny)
      && Decision(Config([allow, deny], RequireApproval), c, Some("a/b/x")).action == Allow
  {
    var allow, deny := PatternRule("a/**", Allow), PatternRule("a/b/**", Deny);
    var rules := [allow, deny];
    assert "a/**"[1..] == SUBTREE && "a/**"[..1] == "a" && "a/b/**"[3..] == SUBTREE && "a/b/**"[..3] == "a/b";
    assert Base("a/**") == "a" && Base("a/b/**") == "a/b";
    assert RankedFrom(rules, 1) == [deny];
    assert Ranked(rules)[0] == allow;
  }

  // ----- Ranking -----

  function Insert(rule: Rule, ranked: seq<Rule>): seq<Rule> {
    if ranked == [] || Specificity(rule) >= Specificity(ranked[0]) then [rule] + ranked
    else [ranked[0]] + Insert(rule, ranked[1..])
  }

  /** Rules by falling specificity; equally specific rules keep their order. */
  function RankedFrom(rules: seq<Rule>, k: nat): seq<Rule>
    requires k <= |rules|
    decreases |rules| - k
  {
    if k == |rules| then [] else Insert(rules[k], RankedFrom(rules, k + 1))
  }

  function Ranked(rules: seq<Rule>): seq<Rule> {
    RankedFrom(rules, 0)
  }

  function FirstApplying(ranked: seq<Rule>, c: Context, subject: Option<string>): Option<Rule> {
    if ranked == [] then None
    else if Applies(ranked[0], c, subject) then Some(ranked[0])
    else FirstApplying(ranked[1..], c, subject)
  }

  /** Rule `i` decides: it applies, nothing that applies is more specific, and nothing earlier is as specific. */
  ghost predicate Decides(rules: seq<Rule>, c: Context, subject: Option<string>, i: nat) {
    && i < |rules|
    && Applies(rules[i], c, subject)
    && forall j :: 0 <= j < |rules| && Applies(rules[j], c, subject) ==>
         && Specificity(rules[j]) <= Specificity(rules[i])
         && (Specificity(rules[j]) == Specificity(rules[i]) ==> i <= j)
  }

  ghost predicate Falling(ranked: seq<Rule>) {
    forall i, j :: 0 <= i < j < |ranked| ==> Specificity(ranked[i]) >= Specificity(ranked[j])
  }

  lemma {:induction false} InsertFalls(rule: Rule, ranked: seq<Rule>)
    requires Falling(ranked)
    ensures Falling(Insert(rule, ranked))
    ensures forall r :: r in Insert(rule, ranked) ==> r == rule || r in ranked
  {
    if ranked != [] && Specificity(rule) < Specificity(ranked[0]) {
      InsertFalls(rule, ranked[1..]);
      var tail := Insert(rule, ranked[1..]);
      forall j | 0 <= j < |tail|
        ensures Specificity(ranked[0]) >= Specificity(tail[j])
      {
        assert tail[j] in tail;
      }
    }
  }

  /** The better of a new rule and the best one so far; the new rule wins a tie. */
  function Better(applies: bool, rule: Rule, best: Option<Rule>): Option<Rule> {
    if applies && (best == None || Specificity(rule) >= Specificity(best.value)) then Some(rule) else best
  }

  lemma {:induction false} InsertRanks(rule: Rule, ranked: seq<Rule>, c: Context, subject: Option<string>)
    requires Falling(ranked)
    ensures FirstApplying(Insert(rule, ranked), c, subject) ==
            Better(Applies(rule, c, subject), rule, FirstApplying(ranked, c, subject))
  {
    if ranked == [] || Specificity(rule) >= Specificity(ranked[0]) {
      FirstIsThere(ranked, c, subject);
      assert ([rule] + ranked)[1..] == ranked;
    } else {
      InsertRanks(rule, ranked[1..], c, subject);
      var tail := Insert(rule, ranked[1..]);
      assert ([ranked[0]] + tail)[1..] == tail;
    }
  }

  lemma {:induction false} FirstIsThere(ranked: seq<Rule>, c: Context, subject: Option<string>)
    ensures var first := FirstApplying(ranked, c, subject);
            first.Some? ==> first.value in ranked && Applies(first.value, c, subject)
  {
    if ranked != [] {
      FirstIsThere(ranked[1..], c, subject);
    }
  }

  /** The deciding one of the rules from `k` on, found by comparing them one by one. */
  function BestFrom(rules: seq<Rule>, c: Context, subject: Option<string>, k: nat): (best: Option<nat>)
    requires k <= |rules|
    ensures best.Some? ==> k <= best.value < |rules|
    decreases |rules| - k
  {
    if k == |rules| then None
    else
      var best := BestFrom(rules, c, subject, k + 1);
      if Applies(rules[k], c, subject) && (best == None || Specificity(rules[k]) >= Specificity(rules[best.value]))
      then Some(k) else best
  }

  lemma {:induction false} RankingFindsBest(rules: seq<Rule>, c: Context, subject: Option<string>, k: nat)
    requires k <= |rules|
    ensures Falling(RankedFrom(rules, k))
    ensures FirstApplying(RankedFrom(rules, k), c, subject) ==
            match BestFrom(rules, c, subject, k) case None => None case Some(i) => Some(rules[i])
    decreases |rules| - k
  {
    if k < |rules| {
      RankingFindsBest(rules, c, subject, k + 1);
      InsertFalls(rules[k], RankedFrom(rules, k + 1));
      InsertRanks(rules[k], RankedFrom(rules, k + 1), c, subject);
    }
  }

  lemma {:induction false} BestDecides(rules: seq<Rule>, c: Context, subject: Option<string>, k: nat)
    requires k <= |rules|
    ensures match BestFrom(rules, c, subject, k)
            case None => forall j :: k <= j < |rules| ==> !Applies(rules[j], c, subject)
            case Some(i) =>
              && Applies(rules[i], c, subject)
              && forall j :: k <= j < |rules| && Applies(rules[j], c, subject) ==>
                   && Specificity(rules[j]) <= Specificity(rules[i])
                   && (Specificity(rules[j]) == Specificity(rules[i]) ==> i <= j)
    decreases |rules| - k
  {
    if k < |rules| {
      BestDecides(rules, c, subject, k + 1);
    }
  }

  /** The first applying rule of the ranking is the earliest applying rule of maximal specificity. */
  lemma RankingDecides(rules: seq<Rule>, c: Context, subject: Option<string>) returns (i: nat)
    ensures match FirstApplying(Ranked(rules), c, subject)
            case None => forall j :: 0 <= j < |rules| ==> !Applies(rules[j], c, subject)
            case Some(rule) => Decides(rules, c, subject, i) && rules[i] == rule
  {
    RankingFindsBest(rules, c, subject, 0);
    BestDecides(rules, c, subject, 0);
    var best := BestFrom(rules, c, subject, 0);
    i := if best.Some? then best.value else 0;
  }

  // ----- Evaluation -----

  function Decision(config: Config, c: Context, subject: Option<string>): PolicyMatch {
    match FirstApplying(Ranked(config.rules), c, subject)
    case None => PolicyMatch(Fallback(config, c), None)
    case Some(rule) => PolicyMatch(rule.action, Some(rule))
  }

  function Priority(action: Action): nat {
    match action
    case Allow => 0
    case Warn => 1
    case RequireApproval => 2
    case Deny => 3
  }

  /** The decision for a whole call: of the single decisions, a strictest one. */
  ghost predicate Strictest(config: Config, c: Context, m: PolicyMatch) {
    if c.subjects == [] then m == Decision(config, c, None)
    else
      && (exists i :: 0 <= i < |c.subjects| && m == Decision(config, c, Some(c.subjects[i])))
      && (forall i :: 0 <= i < |c.subjects| ==>
            Priority(Decision(config, c, Some(c.subjects[i])).action) <= Priority(m.action))
  }

  method Evaluate(config: Config, c: Context) returns (m: PolicyMatch)
    ensures Strictest(config, c, m)
  {
    var ranked := Ranked(config.rules);
    if c.subjects == [] {
      for i := 0 to |ranked|
        invariant FirstApplying(ranked, c, None) == FirstApplying(ranked[i..], c, None)
      {
        if DimensionsMatch(ranked[i], c) && ranked[i].pattern == None {
          return PolicyMatch(ranked[i].action, Some(ranked[i]));
        }
      }
      return PolicyMatch(Fallback(config, c), None);
    }
    var matches: seq<PolicyMatch> := [];
    for i := 0 to |c.subjects|
      invariant |matches| == i
      invariant forall k :: 0 <= k < i ==> matches[k] == Decision(config, c, Some(c.subjects[k]))
    {
      var found := PolicyMatch(Fallback(config, c), None);
      for j := 0 to |ranked|
        invariant FirstApplying(ranked, c, Some(c.subjects[i])) == FirstApplying(ranked[j..], c, Some(c.subjects[i]))
        invariant found == PolicyMatch(Fallback(config, c), None)
      {
        if DimensionsMatch(ranked[j], c) && PatternMatches(ranked[j].pattern, c.subjects[i]) {
          found := PolicyMatch(ranked[j].action, Some(ranked[j]));
          break;
        }
      }
      matches := matches + [found];
    }
    m := matches[0];
    for i := 1 to |matches|
      invariant exists k :: 0 <= k < i && m == matches[k]
      invariant forall k :: 0 <= k < i ==> Priority(matches[k].action) <= Priority(m.action)
    {
      if Priority(matches[i].action) > Priority(m.action) {
        m := matches[i];
      }
    }
  }

  /** Some subject of the call is decided by this action. */
  ghost predicate SomeSubject(config: Config, c: Context, action: Action) {
    exists i :: 0 <= i < |c.subjects| && Decision(config, c, Some(c.subjects[i])).action == action
  }

  /** One denied subject denies the call; short of that, one in need of approval asks for it; then one warning warns. */
  lemma StrictestWins(config: Config, c: Context, m: PolicyMatch)
    requires c.subjects != [] && Strictest(config, c, m)
    ensures m.action ==
      if SomeSubject(config, c, Deny) then Deny
      else if SomeSubject(config, c, RequireApproval) then RequireApproval
      else if SomeSubject(config, c, Warn) then Warn
      else Allow
  {
    var i :| 0 <= i < |c.subjects| && m == Decision(config, c, Some(c.subjects[i]));
    assert SomeSubject(config, c, m.action);
  }

  /** A call that no rule meets gets the default, save for the two internal effect classes, which are allowed. */
  lemma UnmetGetsDefault(config: Config, c: Context, subject: Option<string>)
    requires forall rule :: rule in config.rules ==> !Applies(rule, c, subject)
    ensures Decision(config, c, subject).rule == None
    ensures Decision(config, c, subject).action ==
      if c.effectClass == Some("read_only_internal") || c.effectClass == Some("control_plane_internal") then Allow
      else config.defaultMode
  {
    assert forall k :: 0 <= k < |config.rules| ==> config.rules[k] in config.rules;
    var i := RankingDecides(config.rules, c, subject);
  }

  /** The action depends on which subjects a call has, not on their order or repetition. */
  lemma SubjectOrderIrrelevant(config: Config, a: Context, b: Context, m: PolicyMatch, n: PolicyMatch)
    requires b == a.(subjects := b.subjects)
    requires forall x :: x in a.subjects <==> x in b.subjects
    requires Strictest(config, a, m) && Strictest(config, b, n)
    ensures m.action == n.action
  {
    assert a.subjects == [] <==> b.subjects == [] by {
      if a.subjects != [] {
        assert a.subjects[0] in b.subjects;
      }
      if b.subjects != [] {
        assert b.subjects[0] in a.subjects;
      }
    }
    DecisionIgnoresSubjects(config, a, b);
    if a.subjects != [] {
      NotStricter(config, a, b, m, n);
      NotStricter(config, b, a, n, m);
    }
  }

  lemma NotStricter(config: Config, a: Context, b: Context, m: PolicyMatch, n: PolicyMatch)
    requires b == a.(subjects := b.subjects) && a.subjects != [] && b.subjects != []
    requires forall x :: x in a.subjects ==> x in b.subjects
    requires Strictest(config, a, m) && Strictest(config, b, n)
    ensures Priority(m.action) <= Priority(n.action)
  {
    DecisionIgnoresSubjects(config, a, b);
    var i :| 0 <= i < |a.subjects| && m == Decision(config, a, Some(a.subjects[i]));
    assert a.subjects[i] in a.subjects;
    var j :| 0 <= j < |b.subjects| && b.subjects[j] == a.subjects[i];
    assert Decision(config, b, Some(b.subjects[j])) == m;
  }

  lemma DecisionIgnoresSubjects(config: Config, a: Context, b: Context)
    requires b == a.(subjects := b.subjects)
    ensures forall subject :: Decision(config, a, subject) == Decision(config, b, subject)
  {
    forall subject
      ensures Decision(config, a, subject) == Decision(config, b, subject)
    {
      FirstIgnoresSubjects(Ranked(config.rules), a, b, subject);
    }
  }

  lemma {:induction false} FirstIgnoresSubjects(ranked: seq<Rule>, a: Context, b: Context, subject: Option<string>)
    requires b == a.(subjects := b.subjects)
    ensures FirstApplying(ranked, a, subject) == FirstApplying(ranked, b, subject)
  {
    if ranked != [] {
      FirstIgnoresSubjects(ranked[1..], a, b, subject);
    }
  }

  // ----- Grants -----

  datatype Grant = Grant(rules: seq<Rule>, scopeKey: Option<string>)

  function AllowRules(rules: seq<Rule>): seq<Rule> {
    if rules == [] then []
    else (if rules[0].action == Allow then [rules[0]] else []) + AllowRules(rules[1..])
  }

  /** Some allow rule of the right dimensions admits the subject, or the absence of subjects. */
  predicate Admits(rules: seq<Rule>, c: Context, subject: Option<string>) {
    exists i :: 0 <= i < |rules| && DimensionsMatch(rules[i], c)
                && if subject == None then rules[i].pattern == None
                   else PatternMatches(rules[i].pattern, subject.value)
  }

  /** `approval_grant_covers_request`. */
  predicate Covers(grant: Grant, c: Context) {
    && grant.scopeKey == c.scopeKey
    && var rules := AllowRules(grant.rules);
       if c.subjects == [] then Admits(rules, c, None)
       else forall k :: 0 <= k < |c.subjects| ==> Admits(rules, c, Some(c.subjects[k]))
  }

  lemma {:induction false} AllowRulesAllow(rules: seq<Rule>)
    ensures forall r :: r in AllowRules(rules) <==> r in rules && r.action == Allow
  {
    if rules != [] {
      AllowRulesAllow(rules[1..]);
      assert rules == [rules[0]] + rules[1..];
    }
  }

  /** Some rule of the grant allows the call for this subject. */
  ghost predicate SomeAllows(grant: Grant, c: Context, subject: Option<string>) {
    exists rule :: rule in grant.rules && rule.action == Allow && Applies(rule, c, subject)
  }

  /** A grant covers a call iff it is of the same scope and its allow rules meet the call for every subject. */
  lemma CoversIff(grant: Grant, c: Context)
    ensures Covers(grant, c) <==>
      && grant.scopeKey == c.scopeKey
      && if c.subjects == [] then SomeAllows(grant, c, None)
         else forall k :: 0 <= k < |c.subjects| ==> SomeAllows(grant, c, Some(c.subjects[k]))
  {
    AdmitsIff(grant, c, None);
    forall k | 0 <= k < |c.subjects|
      ensures Admits(AllowRules(grant.rules), c, Some(c.subjects[k])) <==> SomeAllows(grant, c, Some(c.subjects[k]))
    {
      AdmitsIff(grant, c, Some(c.subjects[k]));
    }
  }

  lemma AdmitsIff(grant: Grant, c: Context, subject: Option<string>)
    ensures Admits(AllowRules(grant.rules), c, subject) <==> SomeAllows(grant, c, subject)
  {
    var rules := AllowRules(grant.rules);
    AllowRulesAllow(grant.rules);
    if Admits(rules, c, subject) {
      var i :| 0 <= i < |rules| && Applies(rules[i], c, subject);
      assert rules[i] in rules;
    }
    if SomeAllows(grant, c, subject) {
      var rule :| rule in grant.rules && rule.action == Allow && Applies(rule, c, subject);
      var i :| 0 <= i < |rules| && rules[i] == rule;
      assert DimensionsMatch(rules[i], c);
    }
  }

  /** With only allow rules, a decision is Allow exactly when the fallback is or some rule applies. */
  lemma AllowedIff(config: Config, c: Context, subject: Option<string>)
    requires forall r :: r in config.rules ==> r.action == Allow
    ensures Decision(config, c, subject).action == Allow <==>
            Fallback(config, c) == Allow || Admits(config.rules, c, subject)
  {
    var i := RankingDecides(config.rules, c, subject);
    if FirstApplying(Ranked(config.rules), c, subject).Some? {
      assert config.rules[i] in config.rules;
    }
  }

  /**
    When a grant's allow rules are the whole configuration and the scope keys agree,
    the engine allows a call exactly when the grant covers it or the fallback allows
    everything.
   */
  lemma EngineAllowsIffCovered(grant: Grant, defaultMode: Action, c: Context, m: PolicyMatch)
    requires grant.scopeKey == c.scopeKey
    requires Strictest(Config(AllowRules(grant.rules), defaultMode), c, m)
    ensures m.action == Allow <==>
            Fallback(Config(AllowRules(grant.rules), defaultMode), c) == Allow || Covers(grant, c)
  {
    var config := Config(AllowRules(grant.rules), defaultMode);
    AllowRulesAllow(grant.rules);
    AllowedIff(config, c, None);
    forall k | 0 <= k < |c.subjects|
      ensures Decision(config, c, Some(c.subjects[k])).action == Allow <==>
              Fallback(config, c) == Allow || Admits(config.rules, c, Some(c.subjects[k]))
    {
      AllowedIff(config, c, Some(c.subjects[k]));
    }
    if c.subjects != [] {
      AllAllowed(config, c, m);
    }
  }

  lemma AllAllowed(config: Config, c: Context, m: PolicyMatch)
    requires Strictest(config, c, m) && c.subjects != []
    ensures m.action == Allow <==>
            forall k :: 0 <= k < |c.subjects| ==> Decision(config, c, Some(c.subjects[k])).action == Allow
  {
    forall k | 0 <= k < |c.subjects|
      ensures Priority(Decision(config, c, Some(c.subjects[k])).action) <= Priority(m.action)
    {
    }
  }

  // ----- Scopes offered for file grants -----

  /** Components joined with slashes. */
  function JoinFrom(parts: seq<string>, j: nat): string
    requires j <= |parts|
    decreases |parts| - j
  {
    if j == |parts| then ""
    else if j + 1 == |parts| then parts[j]
    else parts[j] + "/" + JoinFrom(parts, j + 1)
  }

  function JoinPath(parts: seq<string>): string {
    JoinFrom(parts, 0)
  }

  /** One component; empty ones and dots are dropped. */
  function Part(part: string): seq<string> {
    if part == "" || part == "." then [] else [part]
  }

  /** The components of `s[start..]`, of which the first has no slash before `i`. */
  function ComponentsFrom(s: string, start: nat, i: nat): seq<string>
    requires start <= i <= |s|
    decreases |s| - i
  {
    if i == |s| then Part(s[start..i])
    else if s[i] == '/' then Part(s[start..i]) + ComponentsFrom(s, i + 1, i + 1)
    else ComponentsFrom(s, start, i + 1)
  }

  function Components(s: string): seq<string> {
    ComponentsFrom(s, 0, 0)
  }

  /** Position just after the last slash, or 0. */
  function LastSlash(s: string, n: nat): (k: nat)
    requires n <= |s|
    ensures k <= n
  {
    if n == 0 || s[n - 1] == '/' then n else LastSlash(s, n - 1)
  }

  /** `posixpath.dirname`. */
  function DirName(s: string): string {
    var head := s[..LastSlash(s, |s|)];
    var stripped := StripSlashes(head);
    if stripped == "" then head else stripped
  }

  function CommonPrefix(a: seq<string>, b: seq<string>): (c: seq<string>)
    ensures c <= a && c <= b
  {
    if a != [] && b != [] && a[0] == b[0] then [a[0]] + CommonPrefix(a[1..], b[1..]) else []
  }

  /** The components common to all lists: what `posixpath.commonpath` joins for relative paths. */
  function CommonComponents(lists: seq<seq<string>>): seq<string>
    requires lists != []
  {
    if |lists| == 1 then lists[0] else CommonPrefix(lists[0], CommonComponents(lists[1..]))
  }

  predicate IsAbsolute(subject: string) {
    || "/" <= subject
    || (|subject| >= 3 && subject[1] == ':' && subject[2] == '/')
  }

  datatype Scope = Scope(id: string, patterns: seq<string>, broad: bool)

  /** `file_approval_grant_scopes`: the exact files and, if there is one, the common workspace subtree. */
  function FileScopes(subjects: seq<string>): seq<Scope> {
    if subjects == [] then []
    else
      var exact := [Scope("exact", subjects, false)];
      if exists i :: 0 <= i < |subjects| && IsAbsolute(subjects[i]) then exact
      else
        var common := JoinPath(CommonComponents(ParentComponents(subjects)));
        if common == "" then exact
        else exact + [Scope("directory", [StripSlashes(common) + SUBTREE], true)]
  }

  function ParentComponents(subjects: seq<string>): (lists: seq<seq<string>>)
    ensures |lists| == |subjects|
    ensures forall i :: 0 <= i < |subjects| ==> lists[i] == Components(DirName(subjects[i]))
  {
    seq(|subjects|, i requires 0 <= i < |subjects| => Components(DirName(subjects[i])))
  }

  predicate IsName(part: string) {
    part != "" && part != "." && '/' !in part
  }

  /** A workspace-relative identity: the root itself, or names joined with slashes. */
  ghost predicate Canonical(subject: string) {
    subject == "." || exists parts :: IsPath(parts) && subject == JoinPath(parts)
  }

  predicate IsPath(parts: seq<string>) {
    parts != [] && forall i :: 0 <= i < |parts| ==> IsName(parts[i])
  }

  predicate ScopeCovers(scope: Scope, subject: string) {
    exists i :: 0 <= i < |scope.patterns| && PatternMatches(Some(scope.patterns[i]), subject)
  }

  /** Every string matches itself as a pattern, whatever wildcards it spells. */
  lemma SelfMatch(s: string)
    ensures PatternMatches(Some(s), s)
  {
    if s != "*" && EndsWith(s, SUBTREE) {
      var head := s[..|s| - |SUBTREE|];
      StripIsPrefix(head);
      var base := StripSlashes(head);
      assert s == head + SUBTREE;
      assert base + "/" <= s;
    }
  }

  lemma {:induction false} StripIsPrefix(s: string)
    ensures var t := StripSlashes(s); t <= s && forall k :: |t| <= k < |s| ==> s[k] == '/'
  {
    if s != "" && s[|s| - 1] == '/' {
      StripIsPrefix(s[..|s| - 1]);
    }
  }

  /** The first `|front|` components of a joined path are followed by a slash and the others. */
  lemma {:induction false} JoinSplit(front: seq<string>, parts: seq<string>, j: nat)
    requires j < |front| < |parts| && front <= parts
    ensures JoinFrom(parts, j) == JoinFrom(front, j) + "/" + JoinFrom(parts, |front|)
    decreases |front| - j
  {
    assert front[j] == parts[j];
    if j + 1 < |front| {
      JoinSplit(front, parts, j + 1);
      Regroup(parts[j] + "/", JoinFrom(front, j + 1), "/", JoinFrom(parts, |front|));
    }
  }

  lemma Regroup(a: string, b: string, c: string, d: string)
    ensures a + (b + c + d) == (a + b) + c + d
  {
  }

  lemma DirNameOf(head: string, last: string)
    requires head != "" && head[|head| - 1] != '/' && '/' !in last
    ensures DirName(head + "/" + last) == head
  {
    var s := head + "/" + last;
    NoSlash(s, |head| + 1);
    assert s[..|head| + 1] == head + "/";
    assert (head + "/")[..|head|] == head;
    assert StripSlashes(head + "/") == StripSlashes(head) == head;
  }

  /** The parent of a canonical path lists its components but the last. */
  lemma ParentOf(parts: seq<string>)
    requires IsPath(parts)
    ensures Components(DirName(JoinPath(parts))) == parts[..|parts| - 1]
  {
    var s, n := JoinPath(parts), |parts|;
    if n == 1 {
      NoSlash(s, 0);
      assert s[..0] == "";
    } else {
      var front := parts[..n - 1];
      JoinSplit(front, parts, 0);
      JoinEnds(front, 0);
      DirNameOf(JoinPath(front), parts[n - 1]);
      ComponentsOfJoin(JoinPath(front), 0, front, 0);
      assert front[0..] == front;
    }
  }

  lemma {:induction false} NoSlash(s: string, i: nat)
    requires i <= |s| && (i == 0 || s[i - 1] == '/') && forall k :: i <= k < |s| ==> s[k] != '/'
    ensures LastSlash(s, |s|) == i
  {
    LastSlashFrom(s, i, |s|);
  }

  lemma {:induction false} LastSlashFrom(s: string, i: nat, n: nat)
    requires i <= n <= |s| && (i == 0 || s[i - 1] == '/') && forall k :: i <= k < n ==> s[k] != '/'
    ensures LastSlash(s, n) == i
    decreases n
  {
    if n > i {
      LastSlashFrom(s, i, n - 1);
    }
  }

  lemma {:induction false} JoinEnds(parts: seq<string>, j: nat)
    requires IsPath(parts) && j < |parts|
    ensures var s := JoinFrom(parts, j); s != "" && s[|s| - 1] != '/'
    decreases |parts| - j
  {
    if j + 1 == |parts| {
      assert IsName(parts[j]) && parts[j][|parts[j]| - 1] in parts[j];
    } else {
      JoinEnds(parts, j + 1);
    }
  }

  /** Splitting a joined path gives its components back. */
  lemma {:induction false} ComponentsOfJoin(s: string, i: nat, parts: seq<string>, j: nat)
    requires IsPath(parts) && j < |parts| && i <= |s| && s[i..] == JoinFrom(parts, j)
    ensures ComponentsFrom(s, i, i) == parts[j..]
    decreases |parts| - j
  {
    var k := i + |parts[j]|;
    FirstPart(s, i, parts, j);
    ReadPart(s, i, i, k);
    if j + 1 < |parts| {
      ComponentsOfJoin(s, k + 1, parts, j + 1);
    }
    assert parts[j..] == [parts[j]] + parts[j + 1..];
  }

  lemma {:induction false} ReadPart(s: string, start: nat, i: nat, k: nat)
    requires start <= i <= k <= |s| && '/' !in s[start..k] && (k == |s| || s[k] == '/')
    ensures ComponentsFrom(s, start, i) ==
            Part(s[start..k]) + if k == |s| then [] else ComponentsFrom(s, k + 1, k + 1)
    decreases k - i
  {
    if i < k {
      assert s[i] == s[start..k][i - start];
      ReadPart(s, start, i + 1, k);
    }
  }

  lemma FirstPart(s: string, i: nat, parts: seq<string>, j: nat)
    requires IsPath(parts) && j < |parts| && i <= |s| && s[i..] == JoinFrom(parts, j)
    ensures var k := i + |parts[j]|;
            && k <= |s| && s[i..k] == parts[j] && IsName(parts[j])
            && (if j + 1 == |parts| then k == |s|
                else k < |s| && s[k] == '/' && s[k + 1..] == JoinFrom(parts, j + 1))
  {
    var tail, part := s[i..], parts[j];
    var k := i + |part|;
    assert s[i..k] == tail[..|part|];
    if j + 1 < |parts| {
      assert s[k] == tail[|part|];
      assert s[k + 1..] == tail[|part| + 1..];
    }
  }

  lemma {:induction false} CommonIsPrefix(lists: seq<seq<string>>, i: nat)
    requires i < |lists|
    ensures CommonComponents(lists) <= lists[i]
  {
    if |lists| > 1 && i > 0 {
      CommonIsPrefix(lists[1..], i - 1);
    }
  }

  /** A subtree pattern over the first components of a path matches the path. */
  lemma SubtreeMatches(front: seq<string>, parts: seq<string>)
    requires front != [] && front < parts && IsPath(parts)
    ensures PatternMatches(Some(StripSlashes(JoinPath(front)) + SUBTREE), JoinPath(parts))
  {
    JoinEnds(front, 0);
    var base := JoinPath(front);
    assert StripSlashes(base) == base;
    var pattern := base + SUBTREE;
    assert pattern[..|pattern| - |SUBTREE|] == base;
    assert pattern[|pattern| - |SUBTREE|..] == SUBTREE;
    JoinSplit(front, parts, 0);
    assert base + "/" <= JoinPath(parts);
  }

  /** Every scope offered for canonical subjects covers all of them. */
  lemma OfferedScopesCover(subjects: seq<string>, scope: Scope, k: nat)
    requires k < |subjects| && (forall i :: 0 <= i < |subjects| ==> IsAbsolute(subjects[i]) || Canonical(subjects[i]))
    requires scope in FileScopes(subjects)
    ensures ScopeCovers(scope, subjects[k])
  {
    if scope == Scope("exact", subjects, false) {
      SelfMatch(subjects[k]);
      assert PatternMatches(Some(scope.patterns[k]), subjects[k]);
    } else {
      var lists := ParentComponents(subjects);
      var common := CommonComponents(lists);
      CommonIsPrefix(lists, k);
      assert Canonical(subjects[k]);
      if subjects[k] != "." {
        var parts :| IsPath(parts) && subjects[k] == JoinPath(parts);
        ParentOf(parts);
        SubtreeMatches(common, parts);
        assert PatternMatches(Some(scope.patterns[0]), subjects[k]);
      }
    }
  }

  // ----- The directory offered is the narrowest one -----

  lemma {:induction false} PrefixOfCommon(a: seq<string>, b: seq<string>, front: seq<string>)
    requires front <= a && front <= b
    ensures front <= CommonPrefix(a, b)
  {
    if front != [] {
      PrefixOfCommon(a[1..], b[1..], front[1..]);
      assert front == [front[0]] + front[1..];
    }
  }

  lemma {:induction false} CommonIsLongest(lists: seq<seq<string>>, front: seq<string>)
    requires lists != [] && forall i :: 0 <= i < |lists| ==> front <= lists[i]
    ensures front <= CommonComponents(lists)
  {
    if |lists| > 1 {
      forall i | 0 <= i < |lists[1..]| ensures front <= lists[1..][i] {
        assert lists[1..][i] == lists[i + 1];
      }
      CommonIsLongest(lists[1..], front);
      PrefixOfCommon(lists[0], CommonComponents(lists[1..]), front);
    }
  }

  /** The subjects are these workspace paths. */
  predicate SpelledBy(subjects: seq<string>, paths: seq<seq<string>>) {
    |paths| == |subjects| &&
    forall i :: 0 <= i < |paths| ==> IsPath(paths[i]) && subjects[i] == JoinPath(paths[i]) && !IsAbsolute(subjects[i])
  }

  /** A directory that holds all the paths. */
  predicate HoldsAll(directory: seq<string>, paths: seq<seq<string>>) {
    directory != [] && forall i :: 0 <= i < |paths| ==> directory < paths[i]
  }

  lemma ParentsOf(subjects: seq<string>, paths: seq<seq<string>>)
    requires SpelledBy(subjects, paths)
    ensures forall i :: 0 <= i < |paths| ==> ParentComponents(subjects)[i] == paths[i][..|paths[i]| - 1]
  {
    forall i | 0 <= i < |paths| ensures ParentComponents(subjects)[i] == paths[i][..|paths[i]| - 1] {
      ParentOf(paths[i]);
    }
  }

  /**
    For workspace paths the exact files are offered and, if and only if some directory
    holds them all, one directory more: the deepest that does.
   */
  lemma DirectoryOfferedIff(subjects: seq<string>, paths: seq<seq<string>>)
    requires subjects != [] && SpelledBy(subjects, paths)
    ensures FileScopes(subjects) != [] && FileScopes(subjects)[0] == Scope("exact", subjects, false)
    ensures var c := CommonComponents(ParentComponents(subjects));
      if c == [] then |FileScopes(subjects)| == 1 && forall d :: !HoldsAll(d, paths)
      else
        && HoldsAll(c, paths) && (forall d :: HoldsAll(d, paths) ==> d <= c)
        && FileScopes(subjects)[1..] == [Scope("directory", [JoinPath(c) + "/**"], true)]
  {
    var lists := ParentComponents(subjects);
    var c := CommonComponents(lists);
    ParentsOf(subjects, paths);
    forall d | HoldsAll(d, paths) ensures d <= c {
      forall i | 0 <= i < |lists| ensures d <= lists[i] {
        assert d < paths[i] && lists[i] == paths[i][..|paths[i]| - 1];
      }
      CommonIsLongest(lists, d);
    }
    if c != [] {
      forall i | 0 <= i < |paths| ensures c < paths[i] {
        CommonIsPrefix(lists, i);
      }
      assert HoldsAll(c, paths);
      assert c < paths[0];
      assert forall i :: 0 <= i < |c| ==> c[i] == paths[0][i];
      JoinEnds(c, 0);
      assert StripSlashes(JoinPath(c)) == JoinPath(c);
    }
  }

  /** A path outside the workspace is offered by itself only. */
  lemma AbsoluteOfferedAlone(subjects: seq<string>, i: nat)
    requires i < |subjects| && IsAbsolute(subjects[i])
    ensures FileScopes(subjects) == [Scope("exact", subjects, false)]
  {
  }
}
