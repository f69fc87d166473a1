# eslint-plugin-dependency-cruiser: severity partitioning, configuration cache and violation resolver

A Dafny model of the logic that eslint-plugin-dependency-cruiser places around the
dependency-cruiser engine:

- **Severity partitioning** (`filterRules`, `filterBySeverity` in `src/dependency-cruiser.ts`):
  each ESLint rule runs for one severity and sees only the `forbidden` rules of that
  severity. Any key of the resulting rule set that ends up `undefined` is deleted.
- **Configuration loading and memoisation** (`hasKey`, `loadDependencyCruiserConfig`,
  `loadTsConfig`, `loadKnownViolations`, `getConfigs`): where each file is looked for,
  which artifacts are optional, and the one-shot cache. The module-level variables
  become an explicit `Option<Configs>` cache value that is passed from call to call.
  The foreign readers become loader functions passed in as parameters. Each loader
  returns `None` where the plugin's code throws.
- **Violation resolver** (the `ImportDeclaration` handler in `src/rule.ts`): the
  reports for one import declaration. They are computed from the import source, the
  cruise output of the file and the active rule set. `context.report` becomes
  appending a message to the returned sequence. The two `invariant(...)` calls become
  a `Failure` result, because they throw. They are not preconditions: both run only
  after the non-string check, so a non-string source never reaches them.

Modules: `Wrappers` (Option, Result), `Js` (the JavaScript semantics used: `typeof`,
optional chaining, truthiness, `Array.prototype.find`), `DcTypes` (dependency-cruiser's
data shapes), `Partition`, `ConfigCache`, `Resolver`, `Isolation` (partitioner and
resolver combined) and `Examples` (scenarios from the repository's example project).

Each object key is a `Field`: `Missing`, `HoldsUndefined` or `Holds(v)`. This keeps
"key absent" apart from "key present holding `undefined`". That difference is why
`filterRules` has its delete loop.

Two facts about the handler shape the resolver's model:
- The `return` statements at src/rule.ts:97 and :104 leave the whole handler, not
  only the current violation. So the reports are the longest prefix of the edge's
  violations that are reportable.
- The handler reports once for each surviving violation on the edge, so one import
  declaration can receive several diagnostics.

## Model

| member | source | states |
|---|---|---|
| `Js.OptionalGet` | src/dependency-cruiser.ts:74 | `v?.key` gives `undefined` on a nullish receiver, gives the property's value when an object or function has it, and is defined only in that case |
| `Partition.SelectSeverity` | src/dependency-cruiser.ts:150-155 | the filtered rules are exactly those of the requested severity: membership iff, same multiplicity, and a subsequence of the input (order kept) |
| `Partition.FilterBySeverity` | src/dependency-cruiser.ts:150-155 | `rules?.filter(...)`: an undefined rule list stays undefined, a defined one is filtered |
| `Partition.DeleteUndefinedKeys` | src/dependency-cruiser.ts:130-136 | afterwards no key holds `undefined`, and the value read from each key is unchanged |
| `Partition.FilterRules` | src/dependency-cruiser.ts:122-139 | no key of the result holds `undefined`; `forbidden` is dropped exactly when the configuration has none; an empty selection is kept; the kept rules are the requested severity's, in order and with their multiplicity; `options` reads the same as the configuration's |
| `Partition.SeverityIsolation` | src/dependency-cruiser.ts:150-155 | a rule of severity `s` is in the partition for `s` and in no other partition |
| `Partition.SelectSeverityConcat` | src/dependency-cruiser.ts:154 | filtering distributes over concatenation, so relative order is preserved |
| `Partition.SelectSeverityIdempotent` | src/dependency-cruiser.ts:154 | filtering a partition again changes nothing |
| `Partition.PartitionsCoverRules` | src/dependency-cruiser.ts:115-124 | when every rule has a severity, the four partitions together contain every rule exactly as often as the configuration does |
| `ConfigCache.HasKey` | src/dependency-cruiser.ts:168-173 | `hasKey` holds iff the value is a non-null object (not a function) that has the key |
| `ConfigCache.ConfigLocation` | src/dependency-cruiser.ts:49-53 | the configuration location is the `config` setting when it is a string on an object, and `.dependency-cruiser.js` otherwise |
| `ConfigCache.BaselineLocation` | src/dependency-cruiser.ts:93-100 | the baseline location is the `knownViolationsFile` setting when it is a string on an object, and `.dependency-cruiser-known-violations.json` otherwise |
| `ConfigCache.TsConfigFileName` | src/dependency-cruiser.ts:74 | the file name is defined iff `options.tsConfig.fileName` is a defined property along objects (or functions), and it is then that property's value |
| `ConfigCache.LoadDependencyCruiserConfig` | src/dependency-cruiser.ts:49-63 | succeeds iff the extractor yields a configuration for `./<location>`, and then returns it |
| `ConfigCache.LoadTsConfig` | src/dependency-cruiser.ts:70-83 | a TypeScript configuration exists only if the file name is truthy and extraction succeeds; the file is read iff the name is truthy |
| `ConfigCache.GetConfigs` | src/dependency-cruiser.ts:26-40 | a filled cache is returned for any settings and nothing is read; an empty cache reads the configuration first; a missing configuration is fatal and leaves the cache empty; on success the result is cached, the configuration is the extractor's, the TypeScript configuration is what `loadTsConfig` yields for the configuration's options (absent without a truthy file name or when extraction throws), the baseline comes from its location, and the TypeScript file is read only for a truthy file name |
| `ConfigCache.FilledCacheIsFinal` | src/dependency-cruiser.ts:26-40 | from a filled cache every call in any sequence returns the cached value and reads nothing |
| `ConfigCache.FirstSuccessIsMemoised` | src/dependency-cruiser.ts:29-33 | from an empty cache, every call after the first successful one returns that result and reads nothing, whatever its settings |
| `ConfigCache.OptionalArtifactsReadAtMostOnce` | src/dependency-cruiser.ts:20-33 | from an empty cache, over any sequence of calls, the TypeScript configuration and the baseline are each read at most once |
| `Resolver.Message` | src/rule.ts:109-115 | the diagnostic reads back as the rule name, ` (`, the import source, `): ` and the comment text, with the lengths adding up |
| `Resolver.CommentText` | src/rule.ts:113-114 | the comment is used whenever present, an empty one included; the fallback `Import violates the import rules` only when it is absent |
| `Resolver.MessageDeterminesComment` | src/rule.ts:109-115 | for one rule name and import source, two equal diagnostics show the same comment text |
| `Resolver.FindDependency` | src/rule.ts:82-84 | the edge found is the first whose module string equals the import source; none is found iff no edge matches |
| `Resolver.FindRule` | src/rule.ts:90-92 | the rule found is the first in `forbidden` with the violation's name; none iff `forbidden` is undefined or no rule has that name |
| `Resolver.Reports` | src/rule.ts:89-116 | the reports match, one to one and in order, the longest prefix of violations whose rule is found and whose severity agrees; each report is that violation's message; so there are at most as many reports as violations |
| `Resolver.EdgeViolations` | src/rule.ts:79-87 | no matching edge gives no violations; otherwise the first matching edge's violations are walked unless it is valid or has no rule list |
| `Resolver.ImportDeclaration` | src/rule.ts:58-116 | a non-string source gives no reports and checks no invariant; textual output or a missing entry module fails the invariants, and with structured output and an entry module it always succeeds; then the reports are the longest reportable prefix of the first matching edge's violations |
| `Resolver.LongestPrefixIsUnique` | src/rule.ts:89-116 | the longest-prefix characterisation fixes the report sequence uniquely |
| `Isolation.NoCrossSeverityLeakage` | src/rule.ts:89-105 | under the partition for `s`, every report is for a violation of severity `s` whose rule the configuration declares with severity `s` |
| `Isolation.OtherPartitionReportsNothing` | src/rule.ts:94-98 | if the edge's first violation names a rule declared only with other severities, the handler for `s` reports nothing for that import |
| `Isolation.BaselineSuppression` | src/rule.ts:100-105 | if the edge's first violation was evaluated at a severity other than its rule's own, nothing is reported |
| `Examples.ExamplePartitions` | example/.dependency-cruiser.cjs:3-28 | the example configuration splits into `[no-inter-page]` for errors and `[not-to-dev-dep]` for warnings; the info partition is present and empty; options pass through |
| `Examples.ExampleLocations` | example/.eslintrc.cjs:21-24 | the example settings select `.dependency-cruiser.cjs` and the default baseline; absent or non-string settings select the defaults; the example options name `tsconfig.json` |
| `Examples.HeaderImportsCounterError` | example/src/components/header/header.tsx:3-5 | the header's import of `../counter/counter` gives exactly one error, `no-inter-page (../counter/counter): Dependencies between components are not allowed` |
| `Examples.HeaderImportsCounterWarning` | example/src/components/header/header.tsx:3-5 | the same import gives no report under the warnings partition |
| `Examples.HeaderImportsAsset` | example/src/components/header/header.tsx:1 | a valid import gives no report |
| `Examples.DocumentedMessage` | src/rule.ts:107-115 | rule `not-to-test`, source `./my-file.test` and its comment give `not-to-test (./my-file.test): Don't import test code from app code` |
| `Examples.CommentFallback` | src/rule.ts:109-115 | a missing comment gives the fallback text; an empty comment is kept as is |

## Left out

- The `cruise(...)` call (src/rule.ts:42-54) and all rule-pattern matching belong to the dependency-cruiser engine. Its output is an input of `Resolver.ImportDeclaration`.
- The `create` glue (src/rule.ts:21-33) is not a member of its own. Reading `context.settings`, calling `getConfigs`, then `filterRules`, then computing the file path: the settings value and the rule set are parameters instead.
- `path.relative`, `process.cwd()` (src/rule.ts:29-32) and the `path.isAbsolute`/`path.join` choice (src/dependency-cruiser.ts:102-104) are Node path semantics. The baseline reader receives the configured location. Note that the branch as written uses relative locations as they are and joins absolute ones to the working directory, which looks inverted.
- `fs.readFileSync`, `json5.parse`, `extractDepcruiseConfig` and `extractTSConfig` are file I/O and foreign parsers. They are the `Loaders` functions, with `None` for a throw or a falsy result.
- The template literal `${tsConfigFileName}` is folded into the TypeScript loader, which receives the JavaScript value itself.
- The invariant messages are kept only as the constructors `JsonOutputExpected`, `EntryModuleMissing` and `MissingConfiguration`, not as their text.
- ESLint's `meta` block and the `node` passed to `context.report` are not modelled: a report is its message.
- src/index.ts only registers the rule. It imports `dependencyCruiserRule`, which src/rule.ts does not export (it exports `getDependencyCruiserRule`), so it has no behaviour to model.
- JavaScript values: NaN, the infinities, the prototype chain and the built-in properties of primitives are not represented; arrays are objects keyed by index. None of them affects the keys the plugin reads.
- Configuration keys other than `forbidden` and `options` (such as `allowed` or `required`) are not represented. The object literal in `filterRules` drops them.
- Baseline contents and the TypeScript configuration are opaque type parameters, because only the engine reads them.
- Concurrency: none. The plugin runs one file at a time in one process.
