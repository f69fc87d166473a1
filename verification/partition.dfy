/** Severity partitioning: `filterBySeverity` and `filterRules` of src/dependency-cruiser.ts.
    One ESLint rule runs per severity, and each sees only the forbidden rules of its
    own severity. */
module Partition {
  import opened Wrappers
  import opened DcTypes

  /** `xs` is obtained from `ys` by deleting elements, keeping the rest in order. */
  ghost predicate IsSubsequence<T>(xs: seq<T>, ys: seq<T>)
    decreases |ys|
  {
    || xs == []
    || (&& ys != []
        && ((xs[0] == ys[0] && IsSubsequence(xs[1..], ys[1..])) || IsSubsequence(xs, ys[1..])))
  }

  /** The callback `rule.severity === severity` applied by `Array.prototype.filter`:
      the rules of one severity, in their original order and with their multiplicity. */
  function SelectSeverity(rules: seq<Rule>, severity: Severity): (r: seq<Rule>)
    ensures forall x :: x in r <==> x in rules && x.severity == Some(severity)
    ensures forall x :: multiset(r)[x] == if x.severity == Some(severity) then multiset(rules)[x] else 0
    ensures IsSubsequence(r, rules)
    ensures |r| <= |rules|
    decreases |rules|
  {
    if rules == [] then []
    else
      var rest := SelectSeverity(rules[1..], severity);
      assert rules == [rules[0]] + rules[1..];
      if rules[0].severity == Some(severity) then
        var r := [rules[0]] + rest;
        assert r[1..] == rest;
        r
      else
        rest
  }

  /** `rules?.filter(...)`: an undefined rule list stays undefined. */
  function FilterBySeverity(rules: Option<seq<Rule>>, severity: Severity): (r: Option<seq<Rule>>)
    ensures r.Some? <==> rules.Some?
    ensures r.Some? ==> r.value == SelectSeverity(rules.value, severity)
  {
    match rules
    case None => None
    case Some(rs) => Some(SelectSeverity(rs, severity))
  }

  /** The object literal `{ forbidden: ..., options: config.options }`: both keys are
      present, each holding whatever was computed, `undefined` included. */
  function RuleSetLiteral(config: Configuration, severity: Severity): Configuration {
    Configuration(
      forbidden := match FilterBySeverity(config.forbidden.Read(), severity)
                   case None => HoldsUndefined
                   case Some(rs) => Holds(rs),
      options := match config.options.Read()
                 case None => HoldsUndefined
                 case Some(o) => Holds(o))
  }

  /** The `delete rules[key]` loop over the object's keys: every key holding
      `undefined` is removed and nothing else changes. */
  function DeleteUndefinedKeys(rules: Configuration): (r: Configuration)
    ensures !r.forbidden.HoldsUndefined? && !r.options.HoldsUndefined?
    ensures r.forbidden.Read() == rules.forbidden.Read()
    ensures r.options.Read() == rules.options.Read()
  {
    Configuration(
      forbidden := if rules.forbidden.HoldsUndefined? then Missing else rules.forbidden,
      options := if rules.options.HoldsUndefined? then Missing else rules.options)
  }

  /** `filterRules(config, severity)`. */
  function FilterRules(config: Configuration, severity: Severity): (r: Configuration)
    // no key of the result holds `undefined`
    ensures !r.forbidden.HoldsUndefined? && !r.options.HoldsUndefined?
    // `forbidden` is dropped exactly when the configuration had none; an empty selection stays
    ensures r.forbidden.Missing? <==> !config.forbidden.Holds?
    ensures config.forbidden.Holds? ==>
              forall x :: x in r.forbidden.value <==> x in config.forbidden.value && x.severity == Some(severity)
    ensures config.forbidden.Holds? ==> IsSubsequence(r.forbidden.value, config.forbidden.value)
    ensures config.forbidden.Holds? ==>
              forall x :: multiset(r.forbidden.value)[x]
                          == if x.severity == Some(severity) then multiset(config.forbidden.value)[x] else 0
    // `options` is passed through untouched, and dropped exactly when undefined
    ensures r.options.Read() == config.options.Read()
  {
    DeleteUndefinedKeys(RuleSetLiteral(config, severity))
  }

  /** Severity isolation: a rule of severity `s` lands in the partition for `s` and
      in no other partition. */
  lemma SeverityIsolation(config: Configuration, rule: Rule, s: Severity, other: Severity)
    requires config.forbidden.Holds? && rule in config.forbidden.value
    requires rule.severity == Some(s)
    ensures FilterRules(config, s).forbidden.Holds?
    ensures rule in FilterRules(config, s).forbidden.value
    ensures other != s ==> rule !in FilterRules(config, other).forbidden.value
  {
  }

  /** Selection distributes over concatenation, so the relative order of the
      selected rules is that of the configuration. */
  lemma {:induction false} SelectSeverityConcat(a: seq<Rule>, b: seq<Rule>, severity: Severity)
    ensures SelectSeverity(a + b, severity) == SelectSeverity(a, severity) + SelectSeverity(b, severity)
    decreases |a|
  {
    if a == [] {
      assert a + b == b;
    } else {
      assert (a + b)[1..] == a[1..] + b;
      SelectSeverityConcat(a[1..], b, severity);
    }
  }

  /** Selecting a partition from a partition changes nothing. */
  lemma {:induction false} SelectSeverityIdempotent(rules: seq<Rule>, severity: Severity)
    ensures SelectSeverity(SelectSeverity(rules, severity), severity) == SelectSeverity(rules, severity)
    decreases |rules|
  {
    if rules != [] {
      SelectSeverityIdempotent(rules[1..], severity);
      if rules[0].severity == Some(severity) {
        var r := SelectSeverity(rules, severity);
        assert r == [rules[0]] + SelectSeverity(rules[1..], severity);
        assert r[1..] == SelectSeverity(rules[1..], severity);
      }
    }
  }

  /** The four partitions of `rules`, together. */
  ghost function PartitionUnion(rules: seq<Rule>): multiset<Rule> {
    multiset(SelectSeverity(rules, Error)) + multiset(SelectSeverity(rules, Warn))
    + multiset(SelectSeverity(rules, Info)) + multiset(SelectSeverity(rules, Ignore))
  }

  /** How often one rule occurs across the four partitions. */
  lemma PartitionCount(rules: seq<Rule>, x: Rule)
    requires forall i :: 0 <= i < |rules| ==> rules[i].severity.Some?
    ensures multiset(rules)[x] == PartitionUnion(rules)[x]
  {
    var e, w, i, g := SelectSeverity(rules, Error), SelectSeverity(rules, Warn),
                      SelectSeverity(rules, Info), SelectSeverity(rules, Ignore);
    assert PartitionUnion(rules)[x] == multiset(e)[x] + multiset(w)[x] + multiset(i)[x] + multiset(g)[x];
    match x.severity
    case None =>
      assert x !in rules;
    case Some(Error) =>
      assert multiset(w)[x] == 0 && multiset(i)[x] == 0 && multiset(g)[x] == 0;
    case Some(Warn) =>
      assert multiset(e)[x] == 0 && multiset(i)[x] == 0 && multiset(g)[x] == 0;
    case Some(Info) =>
      assert multiset(e)[x] == 0 && multiset(w)[x] == 0 && multiset(g)[x] == 0;
    case Some(Ignore) =>
      assert multiset(e)[x] == 0 && multiset(w)[x] == 0 && multiset(i)[x] == 0;
  }

  /** The four partitions together neither lose nor duplicate a rule: when every rule
      carries a severity, the rules are exactly the union of the partitions. */
  lemma PartitionsCoverRules(rules: seq<Rule>)
    requires forall i :: 0 <= i < |rules| ==> rules[i].severity.Some?
    ensures multiset(rules) == multiset(SelectSeverity(rules, Error)) + multiset(SelectSeverity(rules, Warn))
                               + multiset(SelectSeverity(rules, Info)) + multiset(SelectSeverity(rules, Ignore))
  {
    forall x
      ensures multiset(rules)[x] == PartitionUnion(rules)[x]
    {
      PartitionCount(rules, x);
    }
    assert multiset(rules) == PartitionUnion(rules);
  }
}
