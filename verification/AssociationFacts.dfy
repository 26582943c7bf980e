/**
  When the association choice of `routing/association_conditions.go` needs more facts. The source leaves a
  group unevaluated as soon as one child is; a short-circuiting evaluator decides more, and says exactly
  when a report of missing context was not needed.
*/
module AssociationFacts {
  import opened Seqs
  import opened Association

  // ---------- short-circuiting evaluation ----------

  /** A child with the deciding value decides its group whatever the others are. */
  function Kleene(c: Condition, facts: Facts): Option<bool>
    decreases c, 0
  {
    match c
    case Leaf(id) => facts(id)
    case Group(isOr, children) => KleeneAll(isOr, children, facts)
  }

  function KleeneAll(isOr: bool, cs: seq<Condition>, facts: Facts): Option<bool>
    decreases cs, 1
  {
    if cs == [] then Some(!isOr)
    else
      var first, rest := Kleene(cs[0], facts), KleeneAll(isOr, cs[1..], facts);
      if first == Some(isOr) || rest == Some(isOr) then Some(isOr)
      else if first.None? || rest.None? then None
      else Some(!isOr)
  }

  ghost predicate TruthAll(isOr: bool, cs: seq<Condition>, full: nat -> bool)
    decreases cs, 1
  {
    if cs == [] then !isOr
    else if isOr then Truth(cs[0], full) || TruthAll(isOr, cs[1..], full)
    else Truth(cs[0], full) && TruthAll(isOr, cs[1..], full)
  }

  lemma {:induction false} GroupTruth(isOr: bool, cs: seq<Condition>, full: nat -> bool)
    ensures Truth(Group(isOr, cs), full) == TruthAll(isOr, cs, full)
    decreases |cs|
  {
    if cs != [] {
      GroupTruth(isOr, cs[1..], full);
      assert cs == [cs[0]] + cs[1..];
      assert forall i :: 1 <= i < |cs| ==> cs[i] == cs[1..][i - 1];
      if isOr && TruthAll(isOr, cs[1..], full) {
        var i :| 0 <= i < |cs[1..]| && Truth(cs[1..][i], full);
        assert Truth(cs[i + 1], full);
      }
    }
  }

  /** It is as sound as the source's evaluator. */
  lemma {:induction false} KleeneSound(c: Condition, facts: Facts, full: nat -> bool)
    requires Extends(full, facts) && Kleene(c, facts).Some?
    ensures Kleene(c, facts).value == Truth(c, full)
    decreases c, 0
  {
    match c
    case Leaf(id) =>
    case Group(isOr, children) =>
      KleeneAllSound(isOr, children, facts, full);
      GroupTruth(isOr, children, full);
  }

  lemma {:induction false} KleeneAllSound(isOr: bool, cs: seq<Condition>, facts: Facts, full: nat -> bool)
    requires Extends(full, facts) && KleeneAll(isOr, cs, facts).Some?
    ensures KleeneAll(isOr, cs, facts).value == TruthAll(isOr, cs, full)
    decreases cs, 1
  {
    if cs != [] {
      if Kleene(cs[0], facts).Some? {
        KleeneSound(cs[0], facts, full);
      }
      if KleeneAll(isOr, cs[1..], facts).Some? {
        KleeneAllSound(isOr, cs[1..], facts, full);
      }
    }
  }

  /** And it decides whatever the source's evaluator decides. */
  lemma {:induction false} KleeneDecidesMore(c: Condition, facts: Facts)
    requires Eval(c, facts).Some?
    ensures Kleene(c, facts) == Eval(c, facts)
    decreases c, 0
  {
    match c
    case Leaf(id) =>
    case Group(isOr, children) => KleeneAllDecidesMore(isOr, children, facts);
  }

  lemma {:induction false} KleeneAllDecidesMore(isOr: bool, cs: seq<Condition>, facts: Facts)
    requires EvalAll(isOr, cs, facts).Some?
    ensures KleeneAll(isOr, cs, facts) == EvalAll(isOr, cs, facts)
    decreases cs, 1
  {
    if cs != [] {
      KleeneDecidesMore(cs[0], facts);
      KleeneAllDecidesMore(isOr, cs[1..], facts);
    }
  }

  // ---------- conditions without repeated leaves ----------

  function Leaves(c: Condition): set<nat>
    decreases c, 0
  {
    match c
    case Leaf(id) => {id}
    case Group(_, children) => LeavesAll(children)
  }

  function LeavesAll(cs: seq<Condition>): set<nat>
    decreases cs, 1
  {
    if cs == [] then {} else Leaves(cs[0]) + LeavesAll(cs[1..])
  }

  /** The source evaluates a condition exactly when it knows every leaf of it, deciding or not. */
  lemma {:induction false} EvaluatedIffAllLeavesKnown(c: Condition, facts: Facts)
    ensures Eval(c, facts).Some? <==> forall id :: id in Leaves(c) ==> facts(id).Some?
    decreases c, 0
  {
    match c
    case Leaf(id) =>
    case Group(isOr, children) => AllEvaluatedIff(isOr, children, facts);
  }

  lemma {:induction false} AllEvaluatedIff(isOr: bool, cs: seq<Condition>, facts: Facts)
    ensures EvalAll(isOr, cs, facts).Some? <==> forall id :: id in LeavesAll(cs) ==> facts(id).Some?
    decreases cs, 1
  {
    if cs != [] {
      EvaluatedIffAllLeavesKnown(cs[0], facts);
      AllEvaluatedIff(isOr, cs[1..], facts);
    }
  }

  /**
    A rule's verdict: true without a condition, unknown without a request context or with an unknown
    leaf, and otherwise the truth of its condition.
  */
  lemma RuleVerdict(rule: Rule, input: Option<Facts>, full: nat -> bool)
    requires input.Some? ==> Extends(full, input.value)
    ensures Match(rule, input).Some? <==>
            rule.condition.None? ||
            (input.Some? && forall id :: id in Leaves(rule.condition.value) ==> input.value(id).Some?)
    ensures Match(rule, input).Some? ==>
            Match(rule, input).value == (rule.condition.None? || Truth(rule.condition.value, full))
  {
    if rule.condition.Some? && input.Some? {
      EvaluatedIffAllLeavesKnown(rule.condition.value, input.value);
      if Match(rule, input).Some? {
        EvalSound(rule.condition.value, input.value, full);
      }
    }
  }

  /** No leaf occurs twice. */
  predicate ReadOnce(c: Condition)
    decreases c, 0
  {
    match c
    case Leaf(_) => true
    case Group(_, children) => ReadOnceAll(children)
  }

  predicate ReadOnceAll(cs: seq<Condition>)
    decreases cs, 1
  {
    cs == [] || (ReadOnce(cs[0]) && ReadOnceAll(cs[1..]) && Leaves(cs[0]) !! LeavesAll(cs[1..]))
  }

  ghost predicate AgreeOn(leaves: set<nat>, f: nat -> bool, g: nat -> bool) {
    forall id :: id in leaves ==> f(id) == g(id)
  }

  ghost predicate AgreeOutside(leaves: set<nat>, f: nat -> bool, g: nat -> bool) {
    forall id :: id !in leaves ==> f(id) == g(id)
  }

  lemma {:induction false} TruthOfLeaves(c: Condition, f: nat -> bool, g: nat -> bool)
    requires AgreeOn(Leaves(c), f, g)
    ensures Truth(c, f) == Truth(c, g)
    decreases c, 0
  {
    match c
    case Leaf(id) => assert id in Leaves(c);
    case Group(isOr, children) =>
      TruthOfAllLeaves(isOr, children, f, g);
      GroupTruth(isOr, children, f);
      GroupTruth(isOr, children, g);
  }

  lemma {:induction false} TruthOfAllLeaves(isOr: bool, cs: seq<Condition>, f: nat -> bool, g: nat -> bool)
    requires AgreeOn(LeavesAll(cs), f, g)
    ensures TruthAll(isOr, cs, f) == TruthAll(isOr, cs, g)
    decreases cs, 1
  {
    if cs != [] {
      TruthOfLeaves(cs[0], f, g);
      TruthOfAllLeaves(isOr, cs[1..], f, g);
    }
  }

  /** `full` respects the facts and differs from `base` only on these leaves. */
  ghost predicate Refines(full: nat -> bool, facts: Facts, base: nat -> bool, leaves: set<nat>) {
    Extends(full, facts) && AgreeOutside(leaves, full, base)
  }

  /** A condition still unknown can be given either truth value by its own leaves. */
  lemma {:induction false} DecideEitherWay(c: Condition, facts: Facts, base: nat -> bool, want: bool) returns (full: nat -> bool)
    requires Extends(base, facts) && ReadOnce(c) && Kleene(c, facts).None?
    ensures Refines(full, facts, base, Leaves(c)) && Truth(c, full) == want
    decreases c, 0
  {
    match c
    case Leaf(id) =>
      full := (x: nat) => if x == id then want else base(x);
    case Group(isOr, children) =>
      full := DecideAllEitherWay(isOr, children, facts, base, want);
      GroupTruth(isOr, children, full);
  }

  lemma {:induction false} DecideAllEitherWay(isOr: bool, cs: seq<Condition>, facts: Facts, base: nat -> bool, want: bool)
    returns (full: nat -> bool)
    requires Extends(base, facts) && ReadOnceAll(cs) && KleeneAll(isOr, cs, facts).None?
    ensures Refines(full, facts, base, LeavesAll(cs)) && TruthAll(isOr, cs, full) == want
    decreases cs, 1
  {
    var first, rest := Kleene(cs[0], facts), KleeneAll(isOr, cs[1..], facts);
    if first.Some? {
      full := DecideAllEitherWay(isOr, cs[1..], facts, base, want);
      KleeneSound(cs[0], facts, full);
    } else if rest.Some? || want == isOr {
      full := DecideEitherWay(cs[0], facts, base, want);
      if rest.Some? {
        KleeneAllSound(isOr, cs[1..], facts, full);
      }
    } else {
      var head := DecideEitherWay(cs[0], facts, base, want);
      full := DecideAllEitherWay(isOr, cs[1..], facts, head, want);
      TruthOfLeaves(cs[0], full, head);
    }
  }

  // ---------- rules ----------

  function KleeneMatch(rule: Rule, facts: Facts): Option<bool> {
    if rule.condition.None? then Some(true) else Kleene(rule.condition.value, facts)
  }

  function RuleLeaves(rules: seq<Rule>): set<nat> {
    if rules == [] then {}
    else
      var c := rules[|rules| - 1].condition;
      RuleLeaves(rules[..|rules| - 1]) + if c.None? then {} else Leaves(c.value)
  }

  /** No leaf occurs twice, neither within a rule nor in two of them. */
  predicate ReadOnceRules(rules: seq<Rule>) {
    rules == [] ||
    var c := rules[|rules| - 1].condition;
    && ReadOnceRules(rules[..|rules| - 1])
    && (c.Some? ==> ReadOnce(c.value) && Leaves(c.value) !! RuleLeaves(rules[..|rules| - 1]))
  }

  /** The rules known to be true, everything still unknown taken as false. */
  ghost function Known(rules: seq<Rule>, facts: Facts): seq<bool> {
    seq(|rules|, i requires 0 <= i < |rules| => KleeneMatch(rules[i], facts) == Some(true))
  }

  /** A rule still unknown would win over `s`. */
  ghost predicate StillThreatens(rules: seq<Rule>, facts: Facts, i: nat, s: Option<nat>)
    requires i < |rules| && (s.Some? ==> s.value < |rules|)
  {
    KleeneMatch(rules[i], facts).None? && (s.None? || Beats(rules, i, s.value))
  }

  ghost predicate Unthreatened(rules: seq<Rule>, facts: Facts, s: Option<nat>)
    requires s.Some? ==> s.value < |rules|
  {
    forall i :: 0 <= i < |rules| ==> !StillThreatens(rules, facts, i, s)
  }

  /** Every completion of the facts makes this choice. */
  ghost predicate Survives(rules: seq<Rule>, facts: Facts, s: Option<nat>) {
    forall full :: Extends(full, facts) ==> IsChoice(rules, Decided(rules, full), s)
  }

  lemma DecidedRule(rules: seq<Rule>, facts: Facts, full: nat -> bool, i: nat)
    requires i < |rules| && Extends(full, facts) && KleeneMatch(rules[i], facts).Some?
    ensures Decided(rules, full)[i] == KleeneMatch(rules[i], facts).value
  {
    if rules[i].condition.Some? {
      KleeneSound(rules[i].condition.value, facts, full);
    }
  }

  /** A choice that no rule still unknown beats survives every completion of the facts. */
  lemma UnthreatenedChoiceSurvives(rules: seq<Rule>, facts: Facts, s: Option<nat>)
    requires IsChoice(rules, Known(rules, facts), s) && Unthreatened(rules, facts, s)
    ensures Survives(rules, facts, s)
  {
    forall full | Extends(full, facts) ensures IsChoice(rules, Decided(rules, full), s) {
      var f := Decided(rules, full);
      if s.Some? {
        DecidedRule(rules, facts, full, s.value);
      }
      forall j | 0 <= j < |f| && f[j] ensures s.Some? && Beats(rules, s.value, j) {
        if KleeneMatch(rules[j], facts).Some? {
          DecidedRule(rules, facts, full, j);
          assert Known(rules, facts)[j];
        } else {
          assert !StillThreatens(rules, facts, j, s);
        }
      }
    }
  }

  ghost predicate Possible(rules: seq<Rule>, facts: Facts, f: seq<bool>) {
    |f| == |rules| && forall i :: 0 <= i < |rules| && KleeneMatch(rules[i], facts).Some? ==> f[i] == KleeneMatch(rules[i], facts).value
  }

  lemma {:induction false} DecidedOfLeaves(rules: seq<Rule>, f: nat -> bool, g: nat -> bool)
    requires AgreeOn(RuleLeaves(rules), f, g)
    ensures Decided(rules, f) == Decided(rules, g)
  {
    if rules != [] {
      var init, last := rules[..|rules| - 1], rules[|rules| - 1];
      DecidedOfLeaves(init, f, g);
      if last.condition.Some? {
        TruthOfLeaves(last.condition.value, f, g);
      }
      forall i | 0 <= i < |rules| ensures Decided(rules, f)[i] == Decided(rules, g)[i] {
        if i < |init| {
          assert Decided(init, f)[i] == Decided(init, g)[i];
        }
      }
    }
  }

  /** Without repeated leaves the unknown rules can come out in every combination. */
  lemma {:induction false} EveryOutcomeIsPossible(rules: seq<Rule>, facts: Facts, f: seq<bool>) returns (full: nat -> bool)
    requires ReadOnceRules(rules) && Possible(rules, facts, f)
    ensures Extends(full, facts) && Decided(rules, full) == f
  {
    if rules == [] {
      full := (id: nat) => facts(id) == Some(true);
    } else {
      var n := |rules| - 1;
      var init, last := rules[..n], rules[n];
      var base := EveryOutcomeIsPossible(init, facts, f[..n]);
      full := base;
      if KleeneMatch(last, facts).None? {
        full := DecideEitherWay(last.condition.value, facts, base, f[n]);
        DecidedOfLeaves(init, full, base);
      } else {
        DecidedRule(rules, facts, full, n);
      }
      forall i | 0 <= i < |rules| ensures Decided(rules, full)[i] == f[i] {
        if i < n {
          assert Decided(init, full)[i] == f[..n][i];
        }
      }
    }
  }

  lemma ThreatChangesChoice(rules: seq<Rule>, facts: Facts, i: nat, s: Option<nat>)
    requires IsChoice(rules, Known(rules, facts), s) && i < |rules| && StillThreatens(rules, facts, i, s)
    ensures !IsChoice(rules, Known(rules, facts)[i := true], s)
  {
    assert s.Some? ==> s.value != i;
    var loud := Known(rules, facts)[i := true];
    assert loud[i];
  }

  /** Without repeated leaves some choice survives every completion exactly when no rule still unknown beats the known one. */
  lemma SomeChoiceSurvivesIff(rules: seq<Rule>, facts: Facts, s: Option<nat>)
    requires ReadOnceRules(rules) && IsChoice(rules, Known(rules, facts), s)
    ensures (exists t :: Survives(rules, facts, t)) <==> Unthreatened(rules, facts, s)
  {
    if Unthreatened(rules, facts, s) {
      UnthreatenedChoiceSurvives(rules, facts, s);
    } else {
      var i :| 0 <= i < |rules| && StillThreatens(rules, facts, i, s);
      var quiet := Known(rules, facts);
      var loud := quiet[i := true];
      var full := EveryOutcomeIsPossible(rules, facts, quiet);
      var full' := EveryOutcomeIsPossible(rules, facts, loud);
      ThreatChangesChoice(rules, facts, i, s);
      forall t ensures !Survives(rules, facts, t) {
        if IsChoice(rules, quiet, t) {
          ChoiceUnique(rules, quiet, s, t);
        }
      }
    }
  }

  ghost predicate ReportsMissing(rules: seq<Rule>, facts: Facts) {
    !exists s :: Determined(rules, Some(facts), s)
  }

  /**
    A report of missing context is needed less often than it is given: without repeated leaves it
    comes although every completion of the facts makes the same choice if and only if no rule still
    unknown to the short-circuiting evaluator beats the choice among the known ones.
  */
  lemma OverCautiousIff(rules: seq<Rule>, facts: Facts, s: Option<nat>)
    requires ReadOnceRules(rules) && IsChoice(rules, Known(rules, facts), s) && ReportsMissing(rules, facts)
    ensures (exists t :: Survives(rules, facts, t)) <==> Unthreatened(rules, facts, s)
  {
    SomeChoiceSurvivesIff(rules, facts, s);
  }
}
