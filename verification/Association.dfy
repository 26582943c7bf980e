/** The choice between imported association rules (`routing/association_conditions.go`). */
module Association {
  // It comes with the three-valued condition evaluator it relies on (`internal/routecondition/condition.go`).
  import opened Seqs

  // ---------------------------------------------------------------- conditions

  /** A leaf is named by an index; what it tests is the request's business. */
  datatype Condition = Leaf(id: nat) | Group(isOr: bool, children: seq<Condition>)

  /** Truth of the leaves the request gives evidence for. */
  type Facts = nat -> Option<bool>

  /** A group is evaluated only when all its children are, even if one of them would decide it. */
  function Eval(c: Condition, facts: Facts): Option<bool>
    decreases c, 0
  {
    match c
    case Leaf(id) => facts(id)
    case Group(isOr, children) => EvalAll(isOr, children, facts)
  }

  function EvalAll(isOr: bool, cs: seq<Condition>, facts: Facts): Option<bool>
    decreases cs, 1
  {
    if cs == [] then Some(!isOr)
    else
      match (Eval(cs[0], facts), EvalAll(isOr, cs[1..], facts))
      case (Some(a), Some(b)) => Some(if isOr then a || b else a && b)
      case _ => None
  }

  /** Two-valued meaning once every leaf is known. */
  ghost predicate Truth(c: Condition, full: nat -> bool)
    decreases c, 0
  {
    match c
    case Leaf(id) => full(id)
    case Group(true, children) => exists i :: 0 <= i < |children| && Truth(children[i], full)
    case Group(false, children) => forall i :: 0 <= i < |children| ==> Truth(children[i], full)
  }

  ghost predicate Extends(full: nat -> bool, facts: Facts) {
    forall id :: facts(id).Some? ==> full(id) == facts(id).value
  }

  /** An evaluated condition has that truth value however the missing facts turn out. */
  lemma {:induction false} EvalSound(c: Condition, facts: Facts, full: nat -> bool)
    requires Extends(full, facts) && Eval(c, facts).Some?
    ensures Eval(c, facts).value == Truth(c, full)
    decreases c, 0
  {
    match c
    case Leaf(id) =>
    case Group(isOr, children) => EvalAllSound(isOr, children, facts, full);
  }

  lemma {:induction false} EvalAllSound(isOr: bool, cs: seq<Condition>, facts: Facts, full: nat -> bool)
    requires Extends(full, facts) && EvalAll(isOr, cs, facts).Some?
    ensures isOr ==> (EvalAll(isOr, cs, facts).value <==> exists i :: 0 <= i < |cs| && Truth(cs[i], full))
    ensures !isOr ==> (EvalAll(isOr, cs, facts).value <==> forall i :: 0 <= i < |cs| ==> Truth(cs[i], full))
    decreases cs, 1
  {
    if cs != [] {
      EvalSound(cs[0], facts, full);
      EvalAllSound(isOr, cs[1..], facts, full);
      assert cs == [cs[0]] + cs[1..];
      assert forall i :: 1 <= i < |cs| ==> cs[i] == cs[1..][i - 1];
    }
  }

  // ---------------------------------------------------------------- rules and candidates

  /** No condition means "always". */
  datatype Rule = Rule(priority: int, protocolOrder: seq<int>, condition: Option<Condition>)

  datatype Direct = Direct(conditions: seq<Rule>, protocolOrder: seq<int>)

  datatype Candidate = Candidate(direct: Option<Direct>, channelDirect: Option<Direct>, channelPriority: Option<int>)

  datatype Blocker = NoBlocker | ConditionInvalid | ContextMissing | ConditionMismatch | ProtocolNotAuthorized

  /** `Condition.Match`; no request context evaluates nothing but the absent condition. */
  function Match(rule: Rule, input: Option<Facts>): Option<bool> {
    if rule.condition.None? then Some(true)
    else if input.None? then None
    else Eval(rule.condition.value, input.value)
  }

  // ---------------------------------------------------------------- the choice

  /** One way of deciding every rule that respects the ones already evaluated. */
  ghost predicate Completes(f: seq<bool>, rules: seq<Rule>, input: Option<Facts>) {
    |f| == |rules| && forall i :: 0 <= i < |rules| && Match(rules[i], input).Some? ==> f[i] == Match(rules[i], input).value
  }

  predicate Beats(rules: seq<Rule>, i: nat, j: nat)
    requires i < |rules| && j < |rules|
  {
    rules[i].priority < rules[j].priority || (rules[i].priority == rules[j].priority && i <= j)
  }

  /** `s` is the first rule of minimum priority among the true ones. */
  ghost predicate IsChoice(rules: seq<Rule>, f: seq<bool>, s: Option<nat>)
    requires |f| == |rules|
  {
    match s
    case None => forall j :: 0 <= j < |f| ==> !f[j]
    case Some(i) => i < |f| && f[i] && forall j :: 0 <= j < |f| && f[j] ==> Beats(rules, i, j)
  }

  /** The choice in priorities and places: least priority first, then first place. */
  lemma ChoiceIsFirstOfLeastPriority(rules: seq<Rule>, f: seq<bool>, i: nat)
    requires |f| == |rules| && i < |f|
    ensures IsChoice(rules, f, Some(i)) <==>
            && f[i]
            && (forall j :: 0 <= j < |f| && f[j] ==> rules[i].priority <= rules[j].priority)
            && (forall j :: 0 <= j < i && f[j] ==> rules[i].priority != rules[j].priority)
  {}

  /** The outcome does not depend on what is missing. */
  ghost predicate Determined(rules: seq<Rule>, input: Option<Facts>, s: Option<nat>) {
    forall f :: Completes(f, rules, input) ==> IsChoice(rules, f, s)
  }

  lemma ChoiceUnique(rules: seq<Rule>, f: seq<bool>, s: Option<nat>, t: Option<nat>)
    requires |f| == |rules| && IsChoice(rules, f, s) && IsChoice(rules, f, t)
    ensures s == t
  {}

  /** Every unevaluated rule taken as false. */
  ghost function Cautious(rules: seq<Rule>, input: Option<Facts>): (f: seq<bool>)
    ensures Completes(f, rules, input)
  {
    seq(|rules|, i requires 0 <= i < |rules| => Match(rules[i], input) == Some(true))
  }

  ghost predicate Threatens(rules: seq<Rule>, input: Option<Facts>, i: nat, s: Option<nat>)
    requires i < |rules| && (s.Some? ==> s.value < |rules|)
  {
    Match(rules[i], input).None? && (s.None? || Beats(rules, i, s.value))
  }

  /** The cautious choice is the choice under every completion exactly when no unevaluated rule beats it. */
  lemma DeterminedIffUnthreatened(rules: seq<Rule>, input: Option<Facts>, s: Option<nat>)
    requires IsChoice(rules, Cautious(rules, input), s)
    ensures Determined(rules, input, s) <==> !exists i :: 0 <= i < |rules| && Threatens(rules, input, i, s)
    ensures forall t :: Determined(rules, input, t) ==> t == s
  {
    var cautious := Cautious(rules, input);
    forall t | Determined(rules, input, t) ensures t == s {
      ChoiceUnique(rules, cautious, s, t);
    }
    if i :| 0 <= i < |rules| && Threatens(rules, input, i, s) {
      var bold := cautious[i := true];
      assert Completes(bold, rules, input) && bold[i];
      assert !IsChoice(rules, bold, s) by {
        if s.Some? {
          assert s.value != i;
        }
      }
    } else {
      forall f | Completes(f, rules, input) ensures IsChoice(rules, f, s) {
        forall j | 0 <= j < |f| && f[j] ensures s.Some? && Beats(rules, s.value, j) {
          if Match(rules[j], input).None? {
            assert !Threatens(rules, input, j, s);
          } else {
            assert cautious[j];
          }
        }
      }
    }
  }

  // ---------------------------------------------------------------- protocol orders

  function AmongBits(bits: seq<int>): int -> bool { (b: int) => b in bits }

  /** The rule's order, restricted to the grant's bits when the grant restricts at all. */
  function Authorized(ruleOrder: seq<int>, grant: seq<int>): seq<int> {
    if grant == [] then ruleOrder else Filter(ruleOrder, AmongBits(grant))
  }

  /** `a` is `b` with some elements dropped. */
  ghost predicate Subsequence<T>(a: seq<T>, b: seq<T>) {
    if a == [] then true
    else if b == [] then false
    else if a[|a| - 1] == b[|b| - 1] && Subsequence(a[..|a| - 1], b[..|b| - 1]) then true
    else Subsequence(a, b[..|b| - 1])
  }

  lemma {:induction false} FilterKeepsOrder(order: seq<int>, grant: seq<int>)
    ensures Subsequence(Filter(order, AmongBits(grant)), order)
    ensures forall b :: multiset(Filter(order, AmongBits(grant)))[b] == if b in grant then multiset(order)[b] else 0
  {
    if order != [] {
      var init, last := order[..|order| - 1], order[|order| - 1];
      FilterKeepsOrder(init, grant);
      assert order == init + [last];
    }
  }

  /**
    What is authorized of a rule's order: all of it when nothing is granted, else its elements in
    their order, every occurrence of a granted bit and no other.
  */
  lemma RestrictionKeepsOrder(order: seq<int>, grant: seq<int>)
    ensures grant == [] ==> Authorized(order, grant) == order
    ensures grant != [] ==> Subsequence(Authorized(order, grant), order)
    ensures grant != [] ==>
      forall b :: multiset(Authorized(order, grant))[b] == if b in grant then multiset(order)[b] else 0
  {
    FilterKeepsOrder(order, grant);
  }

  // ---------------------------------------------------------------- the resolver

  /** The candidate after rule `i` won: its authorized protocols and its priority, nothing else. */
  function Applied(candidate: Candidate, i: nat): Candidate
    requires candidate.direct.Some? && i < |candidate.direct.value.conditions|
  {
    var direct := candidate.direct.value;
    var rule := direct.conditions[i];
    var copy := Some(direct.(protocolOrder := Authorized(rule.protocolOrder, direct.protocolOrder)));
    Candidate(copy, copy, Some(rule.priority))
  }

  /** What an applied rule changes of a candidate, and what it leaves. */
  lemma AppliedIsTheRule(candidate: Candidate, i: nat)
    requires candidate.direct.Some? && i < |candidate.direct.value.conditions|
    ensures var before, rule := candidate.direct.value, candidate.direct.value.conditions[i];
            var after := Applied(candidate, i);
            && after.channelPriority == Some(rule.priority)
            && after.direct.Some? && after.channelDirect == after.direct && after.direct.value.conditions == before.conditions
            && (before.protocolOrder == [] ==> after.direct.value.protocolOrder == rule.protocolOrder)
            && (before.protocolOrder != [] ==>
                  && Subsequence(after.direct.value.protocolOrder, rule.protocolOrder)
                  && forall b :: multiset(after.direct.value.protocolOrder)[b] ==
                                 if b in before.protocolOrder then multiset(rule.protocolOrder)[b] else 0)
  {
    RestrictionKeepsOrder(candidate.direct.value.conditions[i].protocolOrder, candidate.direct.value.protocolOrder);
  }

  /** Restricts an order to the permitted bits with one pass, as the resolver does. */
  method RestrictOrder(ruleOrder: seq<int>, grant: seq<int>) returns (order: seq<int>)
    ensures order == Authorized(ruleOrder, grant)
  {
    if grant == [] {
      return ruleOrder;
    }
    var permitted: set<int> := set b | b in grant;
    order := [];
    for i := 0 to |ruleOrder|
      invariant order == Filter(ruleOrder[..i], AmongBits(grant))
    {
      assert ruleOrder[..i + 1] == ruleOrder[..i] + [ruleOrder[i]];
      FilterSnoc(ruleOrder[..i], ruleOrder[i], AmongBits(grant));
      if ruleOrder[i] in permitted {
        order := order + [ruleOrder[i]];
      }
    }
    assert ruleOrder[..|ruleOrder|] == ruleOrder;
  }

  /** First loop: the best evaluated match, and whether anything stayed unevaluated. */
  method SelectEvaluated(rules: seq<Rule>, input: Option<Facts>) returns (selected: Option<nat>, missing: bool)
    ensures IsChoice(rules, Cautious(rules, input), selected)
    ensures missing <==> exists i :: 0 <= i < |rules| && Match(rules[i], input).None?
  {
    selected, missing := None, false;
    for i := 0 to |rules|
      invariant missing <==> exists j :: 0 <= j < i && Match(rules[j], input).None?
      invariant selected.None? ==> forall j :: 0 <= j < i ==> !Cautious(rules, input)[j]
      invariant selected.Some? ==> selected.value < i && Cautious(rules, input)[selected.value]
      invariant selected.Some? ==> forall j :: 0 <= j < i && Cautious(rules, input)[j] ==> Beats(rules, selected.value, j)
    {
      var verdict := Match(rules[i], input);
      if verdict.None? {
        missing := true;
      } else if verdict.value && (selected.None? || rules[i].priority < rules[selected.value].priority) {
        selected := Some(i);
      }
    }
  }

  method ResolveAssociationCandidate(candidate: Candidate, valid: bool, input: Option<Facts>)
    returns (result: Candidate, blocker: Blocker)
    ensures candidate.direct.None? || candidate.direct.value.conditions == [] ==> result == candidate && blocker == NoBlocker
    ensures candidate.direct.Some? && candidate.direct.value.conditions != [] && !valid ==>
      result == candidate && blocker == ConditionInvalid
    ensures candidate.direct.Some? && candidate.direct.value.conditions != [] && valid ==>
      var rules := candidate.direct.value.conditions;
      && (blocker == ContextMissing <==> !exists s :: Determined(rules, input, s))
      && (blocker == ConditionMismatch <==> Determined(rules, input, None))
      && (blocker in {NoBlocker, ProtocolNotAuthorized} ==>
            exists i :: 0 <= i < |rules| && Determined(rules, input, Some(i)) &&
              var applied := Applied(candidate, i);
              var unauthorized := candidate.direct.value.protocolOrder != [] && applied.direct.value.protocolOrder == [];
              && (blocker == ProtocolNotAuthorized <==> unauthorized)
              && (blocker == NoBlocker ==> result == applied))
      && (blocker != NoBlocker ==> result == candidate)
      && blocker != ConditionInvalid
  {
    if candidate.direct.None? || candidate.direct.value.conditions == [] {
      return candidate, NoBlocker;
    }
    var direct := candidate.direct.value;
    var rules := direct.conditions;
    if !valid {
      return candidate, ConditionInvalid;
    }
    var selected, missing := SelectEvaluated(rules, input);
    DeterminedIffUnthreatened(rules, input, selected);
    if missing {
      for i := 0 to |rules|
        invariant forall j :: 0 <= j < i ==> !Threatens(rules, input, j, selected)
      {
        var verdict := Match(rules[i], input);
        if verdict.None? && (selected.None? || rules[i].priority < rules[selected.value].priority
                             || (rules[i].priority == rules[selected.value].priority && i < selected.value)) {
          assert Threatens(rules, input, i, selected);
          return candidate, ContextMissing;
        }
        assert verdict.None? && selected.Some? ==> i != selected.value by {
          assert selected.Some? ==> Cautious(rules, input)[selected.value];
        }
      }
    }
    assert Determined(rules, input, selected);
    if selected.None? {
      return candidate, ConditionMismatch;
    }
    var order := RestrictOrder(rules[selected.value].protocolOrder, direct.protocolOrder);
    if direct.protocolOrder != [] && order == [] {
      return candidate, ProtocolNotAuthorized;
    }
    var copyDirect := direct.(protocolOrder := order);
    result := Candidate(Some(copyDirect), Some(copyDirect), Some(rules[selected.value].priority));
    blocker := NoBlocker;
  }

  // ---------------------------------------------------------------- from rules to leaves

  /** The truth of every rule once all facts are known. */
  ghost function Decided(rules: seq<Rule>, full: nat -> bool): seq<bool> {
    seq(|rules|, i requires 0 <= i < |rules| => rules[i].condition.None? || Truth(rules[i].condition.value, full))
  }

  /** A determined choice is the choice the complete request would have produced. */
  lemma ChoiceSurvivesMissingFacts(rules: seq<Rule>, facts: Facts, full: nat -> bool, s: Option<nat>)
    requires Determined(rules, Some(facts), s) && Extends(full, facts)
    ensures IsChoice(rules, Decided(rules, full), s)
  {
    var f := Decided(rules, full);
    forall i | 0 <= i < |rules| && Match(rules[i], Some(facts)).Some?
      ensures f[i] == Match(rules[i], Some(facts)).value
    {
      if rules[i].condition.Some? {
        EvalSound(rules[i].condition.value, facts, full);
      }
    }
    assert Completes(f, rules, Some(facts));
  }

  /**
    The converse fails below the level of rules: a disjunction with one true and one unknown leaf is
    left unevaluated, so the context is reported missing although every completion of the facts
    makes the same choice.
  */
  lemma MissingContextCanBeOverCautious() returns (rules: seq<Rule>, facts: Facts)
    ensures !exists s :: Determined(rules, Some(facts), s)
    ensures forall full :: Extends(full, facts) ==> IsChoice(rules, Decided(rules, full), Some(0))
  {
    var either := Group(true, [Leaf(0), Leaf(1)]);
    rules := [Rule(0, [1], Some(either))];
    facts := (id: nat) => if id == 0 then Some(true) else None;
    assert Eval(Leaf(1), facts) == None;
    assert EvalAll(true, [Leaf(0), Leaf(1)][1..], facts) == None;
    assert Match(rules[0], Some(facts)) == None;
    assert IsChoice(rules, Cautious(rules, Some(facts)), None);
    DeterminedIffUnthreatened(rules, Some(facts), None);
    assert Threatens(rules, Some(facts), 0, None);
    forall full: nat -> bool | Extends(full, facts) ensures IsChoice(rules, Decided(rules, full), Some(0)) {
      assert facts(0) == Some(true) && full(0);
      assert either.children[0] == Leaf(0) && Truth(Leaf(0), full);
      assert Truth(either, full);
    }
  }
}
