/** Locating and memoising the configurations: `hasKey`, `loadDependencyCruiserConfig`,
    `loadTsConfig`, `loadKnownViolations` and `getConfigs` of src/dependency-cruiser.ts.
    The module-level variables become an explicit cache value threaded from call to
    call; the file readers and parsers become loader functions passed in. */
module ConfigCache {
  import opened Wrappers
  import opened Js
  import opened DcTypes

  /** Defaults of dependency-cruiser's command line, repeated by the plugin. */
  const DefaultBaselineFileName := ".dependency-cruiser-known-violations.json"
  const DefaultConfigFileName := ".dependency-cruiser.js"

  /** `hasKey(key, obj)`: `obj` is a non-null object with the key. */
  predicate HasKey(key: string, obj: Value)
    ensures HasKey(key, obj) <==> obj.Obj? && key in obj.props
  {
    TypeOf(obj) == "object" && obj != Null && key in obj.props
  }

  /** `settings` is an object whose property `key` holds a string. */
  ghost predicate HasStringSetting(settings: Value, key: string) {
    settings.Obj? && key in settings.props && settings.props[key].Str?
  }

  /** The value of `settings[key]` when it is a string, the default otherwise. */
  function StringSetting(settings: Value, key: string, default: string): (loc: string)
    ensures HasStringSetting(settings, key) ==> loc == settings.props[key].s
    ensures !HasStringSetting(settings, key) ==> loc == default
  {
    if HasKey(key, settings) && TypeOf(settings.props[key]) == "string" then settings.props[key].s else default
  }

  /** Where the dependency-cruiser configuration is looked for. */
  function ConfigLocation(settings: Value): (loc: string)
    ensures HasStringSetting(settings, "config") ==> loc == settings.props["config"].s
    ensures !HasStringSetting(settings, "config") ==> loc == ".dependency-cruiser.js"
  {
    StringSetting(settings, "config", DefaultConfigFileName)
  }

  /** Where the baseline of known violations is looked for. */
  function BaselineLocation(settings: Value): (loc: string)
    ensures HasStringSetting(settings, "knownViolationsFile") ==> loc == settings.props["knownViolationsFile"].s
    ensures !HasStringSetting(settings, "knownViolationsFile") ==> loc == ".dependency-cruiser-known-violations.json"
  {
    StringSetting(settings, "knownViolationsFile", DefaultBaselineFileName)
  }

  /** `options.tsConfig.fileName` is a defined own property along an object path. */
  ghost predicate HasTsConfigFileName(options: Value) {
    && (options.Obj? || options.Fun?) && "tsConfig" in options.props
    && var tsConfig := options.props["tsConfig"];
       (tsConfig.Obj? || tsConfig.Fun?) && "fileName" in tsConfig.props && tsConfig.props["fileName"] != Undef
  }

  /** `(options as any)?.tsConfig?.fileName`. */
  function TsConfigFileName(options: Value): (name: Value)
    ensures name != Undef <==> HasTsConfigFileName(options)
    ensures HasTsConfigFileName(options) ==> name == options.props["tsConfig"].props["fileName"]
  {
    OptionalGet(OptionalGet(options, "tsConfig"), "fileName")
  }

  /** The three artifacts read from disk. */
  datatype Artifact = DcConfig | TsConfig | Baseline

  /** The foreign readers. Each yields `None` where the plugin's code throws or yields a
      falsy value: `extractDepcruiseConfig` on a path, `extractTSConfig` on the
      configured file name, and the JSON5 parse of the baseline file's contents. */
  datatype Loaders<T, B> = Loaders(
    extractDepcruiseConfig: string -> Option<Configuration>,
    extractTsConfig: Value -> Option<T>,
    readKnownViolations: string -> Option<B>)

  /** What `getConfigs` returns and memoises. */
  datatype Configs<T, B> = Configs(depcruiseConfig: Configuration, tsConfig: Option<T>, knownViolations: Option<B>)

  /** The only fatal error: no dependency-cruiser configuration could be loaded. */
  datatype Fatal = MissingConfiguration

  /** One call of `getConfigs`: the cache afterwards, what it returned or threw, and
      the artifacts it read, in order. */
  datatype Call<T, B> = Call(cache: Option<Configs<T, B>>, result: Result<Configs<T, B>, Fatal>, loaded: seq<Artifact>)

  /** `loadDependencyCruiserConfig`: the configuration at `./<location>`, or the
      invariant failure. */
  function LoadDependencyCruiserConfig<T, B>(settings: Value, loaders: Loaders<T, B>): (r: Result<Configuration, Fatal>)
    ensures r.Success? <==> loaders.extractDepcruiseConfig("./" + ConfigLocation(settings)).Some?
    ensures r.Success? ==> Some(r.value) == loaders.extractDepcruiseConfig("./" + ConfigLocation(settings))
  {
    match loaders.extractDepcruiseConfig("./" + ConfigLocation(settings))
    case None => Failure(MissingConfiguration)
    case Some(config) => Success(config)
  }

  /** `loadTsConfig`: a TypeScript configuration exists only if a truthy file name
      is configured and its extraction does not throw. Also reports whether the
      file was read. */
  function LoadTsConfig<T, B>(options: Value, loaders: Loaders<T, B>): (r: (Option<T>, seq<Artifact>))
    ensures r.0.Some? ==> Truthy(TsConfigFileName(options)) && r.0 == loaders.extractTsConfig(TsConfigFileName(options))
    ensures Truthy(TsConfigFileName(options)) ==> r.0 == loaders.extractTsConfig(TsConfigFileName(options))
    ensures r.1 == if Truthy(TsConfigFileName(options)) then [TsConfig] else []
  {
    var fileName := TsConfigFileName(options);
    if Truthy(fileName) then (loaders.extractTsConfig(fileName), [TsConfig]) else (None, [])
  }

  /** The options of a configuration as a JavaScript value. */
  function OptionsValue(config: Configuration): Value {
    match config.options.Read()
    case None => Undef
    case Some(o) => o
  }

  /** `getConfigs(settings)` from the cache left by earlier calls. */
  function GetConfigs<T, B>(cache: Option<Configs<T, B>>, settings: Value, loaders: Loaders<T, B>): (c: Call<T, B>)
    // a filled cache is returned whatever the settings, and nothing is read
    ensures cache.Some? ==> c == Call(cache, Success(cache.value), [])
    // an empty cache: the configuration file is read first, then the optional artifacts
    ensures cache.None? ==> c.loaded != [] && c.loaded[0] == DcConfig
    ensures c.result.Failure? <==>
              cache.None? && loaders.extractDepcruiseConfig("./" + ConfigLocation(settings)).None?
    // a missing configuration is fatal and nothing is cached
    ensures c.result.Failure? ==> c.cache.None? && c.loaded == [DcConfig]
    ensures c.result.Success? ==> c.cache == Some(c.result.value)
    ensures cache.None? && c.result.Success? ==>
              && Some(c.result.value.depcruiseConfig) == loaders.extractDepcruiseConfig("./" + ConfigLocation(settings))
              && c.result.value.knownViolations == loaders.readKnownViolations(BaselineLocation(settings))
              && c.result.value.tsConfig == LoadTsConfig(OptionsValue(c.result.value.depcruiseConfig), loaders).0
              && (c.result.value.tsConfig.Some? ==> Truthy(TsConfigFileName(OptionsValue(c.result.value.depcruiseConfig))))
              && c.loaded == [DcConfig] + (if Truthy(TsConfigFileName(OptionsValue(c.result.value.depcruiseConfig)))
                                         then [TsConfig] else []) + [Baseline]
  {
    if cache.Some? then Call(cache, Success(cache.value), [])
    else
      match LoadDependencyCruiserConfig(settings, loaders)
      case Failure(e) => Call(None, Failure(e), [DcConfig])
      case Success(config) =>
        var (tsConfig, tsLoaded) := LoadTsConfig(OptionsValue(config), loaders);
        var knownViolations := loaders.readKnownViolations(BaselineLocation(settings));
        var configs := Configs(config, tsConfig, knownViolations);
        Call(Some(configs), Success(configs), [DcConfig] + tsLoaded + [Baseline])
  }

  /** A sequence of `getConfigs` calls, one per settings value, each starting from the
      cache the previous one left. */
  function Run<T, B>(cache: Option<Configs<T, B>>, calls: seq<Value>, loaders: Loaders<T, B>): (trace: seq<Call<T, B>>)
    ensures |trace| == |calls|
    decreases |calls|
  {
    if calls == [] then []
    else
      var first := GetConfigs(cache, calls[0], loaders);
      [first] + Run(first.cache, calls[1..], loaders)
  }

  /** How often `artifact` is read over a whole run. */
  ghost function ReadCount<T, B>(trace: seq<Call<T, B>>, artifact: Artifact): nat
    decreases |trace|
  {
    if trace == [] then 0 else multiset(trace[0].loaded)[artifact] + ReadCount(trace[1..], artifact)
  }

  /** Once filled, the cache answers every later call with its contents, whatever
      the settings, and reads nothing. */
  lemma {:induction false} FilledCacheIsFinal<T, B>(configs: Configs<T, B>, calls: seq<Value>, loaders: Loaders<T, B>)
    ensures forall i :: 0 <= i < |calls| ==>
              Run(Some(configs), calls, loaders)[i] == Call(Some(configs), Success(configs), [])
    ensures forall a :: ReadCount(Run(Some(configs), calls, loaders), a) == 0
    decreases |calls|
  {
    if calls != [] {
      FilledCacheIsFinal(configs, calls[1..], loaders);
      var trace := Run(Some(configs), calls, loaders);
      assert trace[1..] == Run(Some(configs), calls[1..], loaders);
    }
  }

  /** From an empty cache: after the first call that succeeds, every later call
      returns that first result. */
  lemma {:induction false} FirstSuccessIsMemoised<T, B>(calls: seq<Value>, loaders: Loaders<T, B>)
    ensures var trace := Run(None, calls, loaders);
            forall i, j :: 0 <= i < j < |trace| && trace[i].result.Success? ==>
              trace[j].result == trace[i].result && trace[j].loaded == []
    decreases |calls|
  {
    if calls != [] {
      var trace := Run(None, calls, loaders);
      var first := GetConfigs(None, calls[0], loaders);
      assert trace[1..] == Run(first.cache, calls[1..], loaders);
      if first.result.Success? {
        FilledCacheIsFinal(first.result.value, calls[1..], loaders);
      } else {
        FirstSuccessIsMemoised(calls[1..], loaders);
      }
    }
  }

  /** From an empty cache, the TypeScript configuration and the baseline are each
      read at most once, however many calls are made. */
  lemma {:induction false} OptionalArtifactsReadAtMostOnce<T, B>(calls: seq<Value>, loaders: Loaders<T, B>)
    ensures ReadCount(Run(None, calls, loaders), TsConfig) <= 1
    ensures ReadCount(Run(None, calls, loaders), Baseline) <= 1
    decreases |calls|
  {
    if calls != [] {
      var trace := Run(None, calls, loaders);
      var first := GetConfigs(None, calls[0], loaders);
      assert trace[1..] == Run(first.cache, calls[1..], loaders);
      if first.result.Success? {
        FilledCacheIsFinal(first.result.value, calls[1..], loaders);
      } else {
        OptionalArtifactsReadAtMostOnce(calls[1..], loaders);
      }
    }
  }
}
