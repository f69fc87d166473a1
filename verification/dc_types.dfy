/** The shapes of dependency-cruiser's data that the plugin reads: rules and
    configurations going in, the cruise result coming out. The dependency-cruiser
    engine itself is not part of this model. */
module DcTypes {
  import opened Wrappers
  import opened Js

  /** dependency-cruiser's `SeverityType`. */
  datatype Severity = Error | Warn | Info | Ignore

  /** A forbidden rule as far as the plugin reads it. Every field is optional in
      dependency-cruiser's types; the `from`/`to` patterns are consumed only by the
      engine and are not represented. */
  datatype Rule = Rule(name: Option<string>, severity: Option<Severity>, comment: Option<string>)

  /** One key of a JavaScript object: absent, present but holding `undefined`, or
      holding a value. Reading the key gives `undefined` in the first two cases. */
  datatype Field<T> = Missing | HoldsUndefined | Holds(value: T) {

    /** The value of the property read `obj.key`. */
    function Read(): Option<T> {
      if Holds? then Some(value) else None
    }
  }

  /** The cruise options: an opaque JavaScript value, never `undefined` itself
      (a key holding `undefined` is `HoldsUndefined`). */
  type Options = v: Value | !v.Undef? witness Null

  /** dependency-cruiser's `IConfiguration`, restricted to the two keys the plugin uses. */
  datatype Configuration = Configuration(forbidden: Field<seq<Rule>>, options: Field<Options>)

  /** One rule violation tagged on a dependency (`IRuleSummary`): the rule's name and
      the severity the engine evaluated, baseline applied. */
  datatype Violation = Violation(name: string, severity: Severity)

  /** One import edge of the cruised file. `moduleName` is its `module` property: the import source as written. */
  datatype Dependency = Dependency(moduleName: string, valid: bool, rules: Option<seq<Violation>>)

  /** One cruised module and its direct dependencies. */
  datatype Module = Module(source: string, dependencies: seq<Dependency>)

  /** The `output` of a cruise result: either a textual report or the structured result. */
  datatype CruiseOutput = Text(text: string) | Json(modules: seq<Module>)
}
