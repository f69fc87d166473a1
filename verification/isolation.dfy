/** How the partitioner and the resolver combine: the handler running for one
    severity reports only rules of that severity. */
module Isolation {
  import opened Wrappers
  import opened Js
  import opened DcTypes
  import opened Partition
  import opened Resolver

  /** No cross-severity leakage: with the rule set of severity `s`, every report is
      for a violation of severity `s` whose rule the configuration declares with
      severity `s`. */
  lemma NoCrossSeverityLeakage(config: Configuration, s: Severity, source: Value, output: CruiseOutput)
    requires source.Str? && output.Json? && output.modules != []
    ensures var r := ImportDeclaration(source, output, FilterRules(config, s));
            var vs := EdgeViolations(output.modules[0], source.s);
            && r.Success?
            && forall i :: 0 <= i < |r.value| ==>
                 && vs[i].severity == s
                 && config.forbidden.Holds?
                 && exists rule :: rule in config.forbidden.value && rule.name == Some(vs[i].name) && rule.severity == Some(s)
  {
    var ruleSet := FilterRules(config, s);
    var r := ImportDeclaration(source, output, ruleSet);
    var vs := EdgeViolations(output.modules[0], source.s);
    forall i | 0 <= i < |r.value|
      ensures vs[i].severity == s && config.forbidden.Holds?
      ensures exists rule :: rule in config.forbidden.value && rule.name == Some(vs[i].name) && rule.severity == Some(s)
    {
      assert Reportable(vs[i], ruleSet.forbidden.Read());
      var rule := FindRule(ruleSet.forbidden.Read(), vs[i].name).value;
      assert rule in ruleSet.forbidden.value;
    }
  }

  /** A violation whose rule the configuration declares only with other severities
      makes the handler of severity `s` report nothing for the whole edge. */
  lemma OtherPartitionReportsNothing(config: Configuration, s: Severity, source: Value, output: CruiseOutput)
    requires source.Str? && output.Json? && output.modules != []
    requires EdgeViolations(output.modules[0], source.s) != []
    requires config.forbidden.Holds?
    requires forall rule :: rule in config.forbidden.value && rule.name == Some(EdgeViolations(output.modules[0], source.s)[0].name)
                            ==> rule.severity != Some(s)
    ensures ImportDeclaration(source, output, FilterRules(config, s)) == Success([])
  {
    var ruleSet := FilterRules(config, s);
    var v := EdgeViolations(output.modules[0], source.s)[0];
    assert FindRule(ruleSet.forbidden.Read(), v.name).None?;
  }

  /** Baseline suppression: when the engine evaluated the first violation of the edge
      at a severity other than its rule's own (a known violation in the baseline),
      nothing is reported for the edge. */
  lemma BaselineSuppression(source: Value, output: CruiseOutput, ruleSet: Configuration)
    requires source.Str? && output.Json? && output.modules != []
    requires EdgeViolations(output.modules[0], source.s) != []
    requires var v := EdgeViolations(output.modules[0], source.s)[0];
             var rule := FindRule(ruleSet.forbidden.Read(), v.name);
             rule.Some? && rule.value.severity != Some(v.severity)
    ensures ImportDeclaration(source, output, ruleSet) == Success([])
  {
  }
}
