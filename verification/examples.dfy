/** Concrete scenarios taken from the repository's example project and from the
    comment on the report call. */
module Examples {
  import opened Wrappers
  import opened Js
  import opened DcTypes
  import opened Partition
  import opened ConfigCache
  import opened Resolver

  const NotToDevDep := Rule(Some("not-to-dev-dep"), Some(Warn),
                            Some("App code can't depend on NPM modules listed in devDependencies"))
  const NoInterPage := Rule(Some("no-inter-page"), Some(Error),
                            Some("Dependencies between components are not allowed"))

  /** The example project's dependency-cruiser configuration. */
  const ExampleConfig := Configuration(
    forbidden := Holds([NotToDevDep, NoInterPage]),
    options := Holds(Obj(map[
      "doNotFollow" := Obj(map["path" := Str("node_modules")]),
      "tsPreCompilationDeps" := Bool(true),
      "tsConfig" := Obj(map["fileName" := Str("tsconfig.json")])])))

  /** The example project's ESLint settings for the plugin. */
  const ExampleSettings := Obj(map["config" := Str(".dependency-cruiser.cjs")])

  /** The cruise of the header component when its import of the counter component
      breaks `no-inter-page`. */
  const HeaderOutput := Json([Module("src/components/header/header.tsx", [
    Dependency("./assets/react.svg", true, Some([])),
    Dependency("../counter/counter", false, Some([Violation("no-inter-page", Error)]))])])

  /** Each partition holds the rules of its severity; an empty one is kept. */
  lemma ExamplePartitions()
    ensures FilterRules(ExampleConfig, Error).forbidden == Holds([NoInterPage])
    ensures FilterRules(ExampleConfig, Warn).forbidden == Holds([NotToDevDep])
    ensures FilterRules(ExampleConfig, Info).forbidden == Holds([])
    ensures FilterRules(ExampleConfig, Error).options == ExampleConfig.options
  {
    var rules := [NotToDevDep, NoInterPage];
    assert rules[1..] == [NoInterPage];
    assert rules[1..][1..] == [];
    assert SelectSeverity(rules, Error) == [NoInterPage];
    assert SelectSeverity(rules, Warn) == [NotToDevDep];
  }

  /** The example settings name a custom configuration file and no baseline file;
      the configuration names a TypeScript project file. */
  lemma ExampleLocations()
    ensures ConfigLocation(ExampleSettings) == ".dependency-cruiser.cjs"
    ensures BaselineLocation(ExampleSettings) == ".dependency-cruiser-known-violations.json"
    ensures ConfigLocation(Undef) == ".dependency-cruiser.js"
    ensures ConfigLocation(Obj(map["config" := Num(1.0)])) == ".dependency-cruiser.js"
    ensures TsConfigFileName(OptionsValue(ExampleConfig)) == Str("tsconfig.json")
  {
  }

  /** The expected diagnostic for the header's import of the counter. */
  const InterPageReport := "no-inter-page (../counter/counter): Dependencies between components are not allowed"

  /** The diagnostic text for the header's import of the counter. */
  lemma InterPageMessage()
    ensures Message("no-inter-page", "../counter/counter", NoInterPage.comment) == InterPageReport
  {
    MessageParts("no-inter-page", "../counter/counter", NoInterPage.comment);
    assert CommentText(NoInterPage.comment) == "Dependencies between components are not allowed";
    InterPageText();
  }

  /** The header's import of the counter gives exactly one error. */
  lemma HeaderImportsCounterError()
    ensures ImportDeclaration(Str("../counter/counter"), HeaderOutput, FilterRules(ExampleConfig, Error))
            == Success([InterPageReport])
  {
    ExamplePartitions();
    InterPageMessage();
    var entry := HeaderOutput.modules[0];
    var vs := [Violation("no-inter-page", Error)];
    assert EdgeViolations(entry, "../counter/counter") == vs;
    var errors := FilterRules(ExampleConfig, Error).forbidden.Read();
    assert FindRule(errors, "no-inter-page") == Some(NoInterPage);
    assert vs[1..] == [];
    assert Reports("../counter/counter", vs, errors)
        == [Message("no-inter-page", "../counter/counter", NoInterPage.comment)];
  }

  /** The same import under the warnings rule set gives nothing. */
  lemma HeaderImportsCounterWarning()
    ensures ImportDeclaration(Str("../counter/counter"), HeaderOutput, FilterRules(ExampleConfig, Warn))
            == Success([])
  {
    ExamplePartitions();
    var entry := HeaderOutput.modules[0];
    assert EdgeViolations(entry, "../counter/counter") == [Violation("no-inter-page", Error)];
    var warnings := FilterRules(ExampleConfig, Warn).forbidden.Read();
    assert FindRule(warnings, "no-inter-page") == None;
  }

  /** The header's valid import of its own asset gives nothing. */
  lemma HeaderImportsAsset()
    ensures ImportDeclaration(Str("./assets/react.svg"), HeaderOutput, FilterRules(ExampleConfig, Error))
            == Success([])
  {
    assert EdgeViolations(HeaderOutput.modules[0], "./assets/react.svg") == [];
  }

  /** The message from the comment on the report call. */
  lemma DocumentedMessage()
    ensures Message("not-to-test", "./my-file.test", Some("Don't import test code from app code"))
            == "not-to-test (./my-file.test): Don't import test code from app code"
  {
    MessageParts("not-to-test", "./my-file.test", Some("Don't import test code from app code"));
    DocumentedText();
  }

  /** The fallback text replaces only a missing comment; an empty comment is kept. */
  lemma CommentFallback(name: string, importSource: string)
    ensures Message(name, importSource, None) == name + " (" + importSource + "): Import violates the import rules"
    ensures Message(name, importSource, Some("")) == name + " (" + importSource + "): "
  {
    var head := name + " (" + importSource + "): ";
    MessageParts(name, importSource, None);
    assert Message(name, importSource, None) == head + FallbackComment;
    assert head + FallbackComment == name + " (" + importSource + "): Import violates the import rules";
    MessageParts(name, importSource, Some(""));
    assert head + "" == head;
  }

  // The lemmas below only assemble the literal diagnostics above. The solver expands
  // `a + b` for a literal `b` one character at a time, so each long literal is built
  // in short appends, one per lemma; none of them models anything of its own.

  lemma MessageParts(name: string, importSource: string, comment: Option<string>)
    ensures Message(name, importSource, comment) == name + " (" + importSource + "): " + CommentText(comment)
  {
  }

  lemma InterPageHead()
    ensures "no-inter-page" + " (" + "../counter/counter" + "): " == "no-inter-page (../counter/counter): "
  {
    assert "no-inter-page" + " (" == "no-inter-page (";
    assert "no-inter-page (" + "../counter/counter" == "no-inter-page (../counter/counter";
  }

  lemma InterPageComment()
    ensures "Dependencies between components are not allowed"
            == ("Dependencies between " + "components ") + "are not allowed"
  {
    assert "Dependencies between " + "components " == "Dependencies between components ";
  }

  lemma InterPageStep1()
    ensures "no-inter-page (../counter/counter): " + "Dependencies between "
            == "no-inter-page (../counter/counter): Dependencies between "
  {
  }

  lemma InterPageStep2()
    ensures "no-inter-page (../counter/counter): Dependencies between " + "components "
            == "no-inter-page (../counter/counter): Dependencies between components "
  {
  }

  lemma InterPageStep3()
    ensures "no-inter-page (../counter/counter): Dependencies between components " + "are not allowed"
            == InterPageReport
  {
  }

  lemma InterPageText()
    ensures "no-inter-page" + " (" + "../counter/counter" + "): " + "Dependencies between components are not allowed"
            == InterPageReport
  {
    var head := "no-inter-page (../counter/counter): ";
    var a, b, c := "Dependencies between ", "components ", "are not allowed";
    InterPageHead();
    InterPageComment();
    InterPageStep1();
    InterPageStep2();
    InterPageStep3();
    assert head + ((a + b) + c) == ((head + a) + b) + c;
  }

  lemma DocumentedHead()
    ensures "not-to-test" + " (" + "./my-file.test" + "): " == "not-to-test (./my-file.test): "
  {
    assert "not-to-test" + " (" == "not-to-test (";
    assert "not-to-test (" + "./my-file.test" == "not-to-test (./my-file.test";
  }

  lemma DocumentedTail()
    ensures "not-to-test (./my-file.test): " + ("Don't import " + "test code from app code")
            == "not-to-test (./my-file.test): Don't import test code from app code"
  {
    var head := "not-to-test (./my-file.test): ";
    assert head + ("Don't import " + "test code from app code") == (head + "Don't import ") + "test code from app code";
    assert head + "Don't import " == "not-to-test (./my-file.test): Don't import ";
  }

  lemma DocumentedText()
    ensures "not-to-test" + " (" + "./my-file.test" + "): " + "Don't import test code from app code"
            == "not-to-test (./my-file.test): Don't import test code from app code"
  {
    DocumentedHead();
    DocumentedTail();
    assert "Don't import test code from app code" == "Don't import " + "test code from app code";
  }
}
