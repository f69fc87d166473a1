/** The `ImportDeclaration` handler of src/rule.ts: which diagnostics one import
    declaration produces, given the cruise output of its file and the rule set of
    the running severity. `context.report` becomes appending a message to the
    returned sequence. */
module Resolver {
  import opened Wrappers
  import opened Js
  import opened DcTypes

  /** The text used when the broken rule has no comment. */
  const FallbackComment := "Import violates the import rules"

  /** What the two `invariant(...)` calls throw when the cruise output breaks the
      engine's contract. */
  datatype InvariantFailure = JsonOutputExpected | EntryModuleMissing

  /** The text closing a diagnostic: the rule's comment when it has one (even an
      empty one), the fallback only when it has none. */
  function CommentText(comment: Option<string>): (t: string)
    ensures comment.Some? ==> t == comment.value
    ensures comment.None? ==> t == "Import violates the import rules"
  {
    comment.GetOr(FallbackComment)
  }

  /** The diagnostic text `<name> (<import source>): <comment ?? fallback>`, read
      back field by field. */
  function Message(name: string, importSource: string, comment: Option<string>): (m: string)
    ensures |m| == |name| + |importSource| + 5 + |CommentText(comment)|
    ensures m[..|name|] == name
    ensures m[|name|..|name| + 2] == " ("
    ensures m[|name| + 2..|name| + 2 + |importSource|] == importSource
    ensures m[|name| + 2 + |importSource|..|name| + 5 + |importSource|] == "): "
    ensures m[|name| + 5 + |importSource|..] == CommentText(comment)
  {
    var m := name + " (" + importSource + "): " + CommentText(comment);
    assert m == name + (" (" + (importSource + ("): " + CommentText(comment))));
    m
  }

  /** For one rule name and import source, the message determines the comment
      text shown: different comment texts never give the same diagnostic. */
  lemma MessageDeterminesComment(name: string, importSource: string, c1: Option<string>, c2: Option<string>)
    requires Message(name, importSource, c1) == Message(name, importSource, c2)
    ensures CommentText(c1) == CommentText(c2)
  {
    var k := |name| + 5 + |importSource|;
    assert Message(name, importSource, c1)[k..] == Message(name, importSource, c2)[k..];
  }

  /** `cruisedModule.dependencies.find(dep => dep.module === importSource)`. */
  function FindDependency(deps: seq<Dependency>, importSource: string): (r: Option<Dependency>)
    ensures r.None? <==> forall i :: 0 <= i < |deps| ==> deps[i].moduleName != importSource
    ensures r.Some? ==> exists i :: 0 <= i < |deps| && deps[i] == r.value && deps[i].moduleName == importSource
                                   && forall j :: 0 <= j < i ==> deps[j].moduleName != importSource
  {
    Find(deps, (d: Dependency) => d.moduleName == importSource)
  }

  /** `ruleSet.forbidden?.find(rule => rule.name === name)`. */
  function FindRule(forbidden: Option<seq<Rule>>, name: string): (r: Option<Rule>)
    ensures r.None? <==> forbidden.None? || forall i :: 0 <= i < |forbidden.value| ==> forbidden.value[i].name != Some(name)
    ensures r.Some? ==> forbidden.Some? && r.value.name == Some(name)
    ensures r.Some? ==> exists i :: (&& 0 <= i < |forbidden.value| && forbidden.value[i] == r.value
                                     && forall j :: 0 <= j < i ==> forbidden.value[j].name != Some(name))
  {
    match forbidden
    case None => None
    case Some(rules) => Find(rules, (rule: Rule) => rule.name == Some(name))
  }

  /** A violation is reported when its rule is in the active rule set and the
      severity the engine evaluated is that rule's own severity. */
  predicate Reportable(v: Violation, forbidden: Option<seq<Rule>>) {
    match FindRule(forbidden, v.name)
    case None => false
    case Some(rule) => rule.severity == Some(v.severity)
  }

  /** The diagnostic for a reportable violation. */
  function ReportFor(v: Violation, importSource: string, forbidden: Option<seq<Rule>>): string
    requires Reportable(v, forbidden)
  {
    Message(v.name, importSource, FindRule(forbidden, v.name).value.comment)
  }

  /** `reports` answer, one to one and in order, the longest prefix of `violations`
      made of reportable violations. */
  ghost predicate ReportsLongestPrefix(reports: seq<string>, importSource: string, violations: seq<Violation>,
                                       forbidden: Option<seq<Rule>>)
  {
    && |reports| <= |violations|
    && (forall i :: 0 <= i < |reports| ==>
          Reportable(violations[i], forbidden) && reports[i] == ReportFor(violations[i], importSource, forbidden))
    && (|reports| < |violations| ==> !Reportable(violations[|reports|], forbidden))
  }

  /** The `for ... of dependency.rules` loop: each violation is reported until one
      whose rule is not in the rule set or whose severity differs, where the handler
      returns and the remaining violations are never looked at. */
  function Reports(importSource: string, violations: seq<Violation>, forbidden: Option<seq<Rule>>): (r: seq<string>)
    ensures ReportsLongestPrefix(r, importSource, violations, forbidden)
    decreases |violations|
  {
    if violations == [] then []
    else
      var v := violations[0];
      match FindRule(forbidden, v.name)
      case None => []
      case Some(brokenRule) =>
        if Some(v.severity) != brokenRule.severity then []
        else
          var rest := Reports(importSource, violations[1..], forbidden);
          var r := [Message(v.name, importSource, brokenRule.comment)] + rest;
          assert r[1..] == rest;
          r
  }

  /** The violations the handler walks for `importSource`: those of the first edge
      with that import source, when the edge is invalid and carries a rule list. */
  function EdgeViolations(entry: Module, importSource: string): (vs: seq<Violation>)
    ensures (forall i :: 0 <= i < |entry.dependencies| ==> entry.dependencies[i].moduleName != importSource) ==> vs == []
    ensures forall i :: (&& 0 <= i < |entry.dependencies|
                         && entry.dependencies[i].moduleName == importSource
                         && (forall j :: 0 <= j < i ==> entry.dependencies[j].moduleName != importSource))
                         ==> vs == if entry.dependencies[i].valid || entry.dependencies[i].rules.None? then []
                                   else entry.dependencies[i].rules.value
  {
    match FindDependency(entry.dependencies, importSource)
    case None => []
    case Some(dep) => if dep.valid || dep.rules.None? then [] else dep.rules.value
  }

  /** The handler body for one import declaration whose `source.value` is `source`,
      run against the cruise output of its file and the rule set of one severity. */
  function ImportDeclaration(source: Value, output: CruiseOutput, ruleSet: Configuration)
    : (r: Result<seq<string>, InvariantFailure>)
    // only string import sources are looked at, before any invariant is checked
    ensures !source.Str? ==> r == Success([])
    ensures source.Str? && output.Text? ==> r == Failure(JsonOutputExpected)
    ensures source.Str? && output.Json? && output.modules == [] ==> r == Failure(EntryModuleMissing)
    ensures r.Failure? ==> source.Str?
    // once both invariants hold, the handler does not throw
    ensures source.Str? && output.Json? && output.modules != [] ==> r.Success?
    ensures r.Success? && source.Str? ==>
              && output.Json? && output.modules != []
              && ReportsLongestPrefix(r.value, source.s, EdgeViolations(output.modules[0], source.s),
                                      ruleSet.forbidden.Read())
  {
    if !source.Str? then Success([])
    else if output.Text? then Failure(JsonOutputExpected)
    else if output.modules == [] then Failure(EntryModuleMissing)
    else
      var importSource := source.s;
      Success(Reports(importSource, EdgeViolations(output.modules[0], importSource), ruleSet.forbidden.Read()))
  }

  /** The characterisation of the reports is complete: two report sequences that both
      answer the longest reportable prefix are equal. */
  lemma {:induction false} LongestPrefixIsUnique(r1: seq<string>, r2: seq<string>, importSource: string,
                                                 violations: seq<Violation>, forbidden: Option<seq<Rule>>)
    requires ReportsLongestPrefix(r1, importSource, violations, forbidden)
    requires ReportsLongestPrefix(r2, importSource, violations, forbidden)
    ensures r1 == r2
  {
    assert |r1| == |r2|;
  }
}
