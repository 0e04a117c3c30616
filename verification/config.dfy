/** The configuration manager: a YAML document (already parsed into a
    dictionary) is overridden entry by entry from environment variables, then
    each of its six sections fills one configuration dataclass whose missing
    fields keep their defaults; saving writes every field of every section
    back out. */
module Configuration {
  import opened Wrappers
  import opened Values
  import opened Strings

  /** Python's `ValueError` from `int()` / `float()`, and the `TypeError`s of
      assigning into, or `**`-expanding, a section that is not a mapping or
      that names a field the dataclass does not have. */
  datatype ConfigError = BadNumber(envVar: string) | NotAMapping(section: string) | UnexpectedField(section: string)

  // ---------------------------------------------------------------------
  // Environment overrides

  /** One row of the override table: environment variable -> (section, key). */
  datatype Mapping = Mapping(envVar: string, section: string, key: string)

  /** The override table, in its declaration order. */
  const EnvMappings: seq<Mapping> := [
    Mapping("REDIS_HOST", "redis", "host"),
    Mapping("REDIS_PORT", "redis", "port"),
    Mapping("REDIS_DB", "redis", "db"),
    Mapping("REDIS_PASSWORD", "redis", "password"),
    Mapping("EMBEDDING_MODEL", "embedding", "model"),
    Mapping("EMBEDDING_BATCH_SIZE", "embedding", "batch_size"),
    Mapping("EMBEDDING_CACHE", "embedding", "cache_embeddings"),
    Mapping("PDF_MAX_SIZE_MB", "pdf_processing", "max_file_size_mb"),
    Mapping("PDF_OCR_ENABLED", "pdf_processing", "ocr_enabled"),
    Mapping("PDF_PRESERVE_FORMAT", "pdf_processing", "preserve_formatting"),
    Mapping("SEARCH_MAX_RESULTS", "search", "default_max_results"),
    Mapping("SEARCH_SIMILARITY_THRESHOLD", "search", "similarity_threshold"),
    Mapping("SEARCH_KEYWORD_FALLBACK", "search", "enable_keyword_fallback"),
    Mapping("MCP_SERVER_NAME", "mcp", "server_name"),
    Mapping("MCP_VERSION", "mcp", "version"),
    Mapping("LOG_LEVEL", "logging", "level"),
    Mapping("LOG_FORMAT", "logging", "format")
  ]

  const IntKeys: set<string> := {"port", "db", "batch_size", "max_file_size_mb", "default_max_results"}
  const BoolKeys: set<string> := {"ocr_enabled", "preserve_formatting", "cache_embeddings", "enable_keyword_fallback"}

  /** The spellings read as true; every other string reads as false. */
  const TrueWords: set<string> := {"true", "1", "yes", "on"}

  /** The type conversion applied to an environment value, chosen by the key
      it is written to. `parseFloat` is Python's `float()` on a string. */
  function Convert(m: Mapping, raw: string, parseFloat: string -> Option<real>): (r: Result<Value, ConfigError>)
    ensures r.Failure? <==> (m.key in IntKeys && ParseInt(raw).None?)
                            || (m.key == "similarity_threshold" && parseFloat(raw).None?)
    ensures r.Success? && m.key in IntKeys ==> r.value == Int(ParseInt(raw).value)
  {
    if m.key in IntKeys then
      var n :- ParseIntAt(m, raw);
      Success(Int(n))
    else if m.key == "similarity_threshold" then
      if parseFloat(raw).Some? then Success(Float(parseFloat(raw).value)) else Failure(BadNumber(m.envVar))
    else if m.key in BoolKeys then
      Success(Bool(Lower(raw) in TrueWords))
    else
      Success(Str(raw))
  }

  function ParseIntAt(m: Mapping, raw: string): (r: Result<int, ConfigError>)
    ensures r.Success? <==> ParseInt(raw).Some?
    ensures r.Success? ==> r.value == ParseInt(raw).value
  {
    if ParseInt(raw).Some? then Success(ParseInt(raw).value) else Failure(BadNumber(m.envVar))
  }

  /** A boolean key is true exactly for the listed spellings, in any letter case. */
  lemma BoolOverride(m: Mapping, raw: string, parseFloat: string -> Option<real>)
    requires m.key in BoolKeys
    ensures Convert(m, raw, parseFloat).Success?
    ensures Convert(m, raw, parseFloat).value == Bool(true) <==> Lower(raw) in TrueWords
    ensures Convert(m, raw, parseFloat).value == Bool(false) <==> Lower(raw) !in TrueWords
  {
    assert m.key !in IntKeys;
    assert m.key != "similarity_threshold";
  }

  /** Keys outside the typed lists take the environment string verbatim. */
  lemma TextOverride(m: Mapping, raw: string, parseFloat: string -> Option<real>)
    requires m.key !in IntKeys && m.key !in BoolKeys && m.key != "similarity_threshold"
    ensures Convert(m, raw, parseFloat) == Success(Str(raw))
  {
  }

  /** An integer key reads back any integer written in decimal. */
  lemma IntOverride(m: Mapping, n: int, parseFloat: string -> Option<real>)
    requires m.key in IntKeys
    ensures Convert(m, IntToString(n), parseFloat) == Success(Int(n))
  {
    ParseIntRoundTrip(n);
  }

  /** The section stored under `s`, if any (`data.get(s)`). */
  function SectionAt(data: map<string, Value>, s: string): Option<Value>
  {
    if s in data then Some(data[s]) else None
  }

  /** The entry `data[s][k]`, if the section is a mapping holding `k`. */
  function Entry(data: map<string, Value>, s: string, k: string): Option<Value>
  {
    if s in data && data[s].Dict? && k in data[s].fields then Some(data[s].fields[k]) else None
  }

  /** A section that exists but cannot take an item assignment. */
  predicate Blocked(data: map<string, Value>, s: string)
  {
    s in data && !data[s].Dict?
  }

  /** One row of the loop: nothing happens when the variable is unset; a
      missing section is created empty; the converted value replaces the one
      entry and nothing else. */
  function ApplyOverride(data: map<string, Value>, m: Mapping, env: map<string, string>,
                         parseFloat: string -> Option<real>): (r: Result<map<string, Value>, ConfigError>)
    ensures m.envVar !in env ==> r == Success(data)
    ensures r.Failure? <==> m.envVar in env && (Convert(m, env[m.envVar], parseFloat).Failure? || Blocked(data, m.section))
    ensures r.Success? && m.envVar in env ==>
              Entry(r.value, m.section, m.key) == Some(Convert(m, env[m.envVar], parseFloat).value)
    ensures r.Success? ==> forall s, k :: s != m.section || k != m.key ==> Entry(r.value, s, k) == Entry(data, s, k)
    ensures r.Success? ==> forall s :: s != m.section ==> SectionAt(r.value, s) == SectionAt(data, s)
    ensures r.Success? ==> forall s :: Blocked(r.value, s) == Blocked(data, s)
  {
    if m.envVar !in env then Success(data)
    else
      var section := if m.section in data then data[m.section] else Dict(map[]);
      var v :- Convert(m, env[m.envVar], parseFloat);
      if !section.Dict? then Failure(NotAMapping(m.section))
      else Success(data[m.section := Dict(section.fields[m.key := v])])
  }

  /** `_apply_env_overrides` over any table of rows, in order. */
  function ApplyAll(data: map<string, Value>, ms: seq<Mapping>, env: map<string, string>,
                    parseFloat: string -> Option<real>): (r: Result<map<string, Value>, ConfigError>)
    decreases |ms|
  {
    if |ms| == 0 then Success(data)
    else
      var next :- ApplyOverride(data, ms[0], env, parseFloat);
      ApplyAll(next, ms[1..], env, parseFloat)
  }

  /** Some row whose variable is set writes `data[s][k]`. */
  predicate Targeted(ms: seq<Mapping>, env: map<string, string>, s: string, k: string)
  {
    exists i :: 0 <= i < |ms| && ms[i].envVar in env && ms[i].section == s && ms[i].key == k
  }

  /** Some row whose variable is set writes into section `s`. */
  predicate SectionTargeted(ms: seq<Mapping>, env: map<string, string>, s: string)
  {
    exists i :: 0 <= i < |ms| && ms[i].envVar in env && ms[i].section == s
  }

  /** Some set row cannot be converted or cannot be stored. */
  predicate Fails(data: map<string, Value>, ms: seq<Mapping>, env: map<string, string>,
                  parseFloat: string -> Option<real>)
  {
    exists i :: 0 <= i < |ms| && ms[i].envVar in env
      && (Convert(ms[i], env[ms[i].envVar], parseFloat).Failure? || Blocked(data, ms[i].section))
  }

  /** No two rows write the same entry. */
  predicate DistinctTargets(ms: seq<Mapping>)
  {
    forall i, j :: 0 <= i < j < |ms| ==> ms[i].section != ms[j].section || ms[i].key != ms[j].key
  }

  /** The overrides fail exactly when a set variable does not convert, or its
      section is present but not a mapping. */
  lemma {:induction false} ApplyAllFailure(data: map<string, Value>, ms: seq<Mapping>, env: map<string, string>,
                                           parseFloat: string -> Option<real>)
    ensures ApplyAll(data, ms, env, parseFloat).Failure? <==> Fails(data, ms, env, parseFloat)
    decreases |ms|
  {
    if |ms| > 0 {
      var step := ApplyOverride(data, ms[0], env, parseFloat);
      if step.Success? {
        var next := step.value;
        ApplyAllFailure(next, ms[1..], env, parseFloat);
        if Fails(data, ms, env, parseFloat) {
          var i :| 0 <= i < |ms| && ms[i].envVar in env
            && (Convert(ms[i], env[ms[i].envVar], parseFloat).Failure? || Blocked(data, ms[i].section));
          assert i > 0;
          assert ms[1..][i - 1] == ms[i];
        }
        if Fails(next, ms[1..], env, parseFloat) {
          var i :| 0 <= i < |ms[1..]| && ms[1..][i].envVar in env
            && (Convert(ms[1..][i], env[ms[1..][i].envVar], parseFloat).Failure? || Blocked(next, ms[1..][i].section));
          assert ms[i + 1] == ms[1..][i];
        }
      }
    }
  }

  /** Entries no set row writes are left as they were. */
  lemma {:induction false} ApplyAllUntouched(data: map<string, Value>, ms: seq<Mapping>, env: map<string, string>,
                                             parseFloat: string -> Option<real>, s: string, k: string)
    requires ApplyAll(data, ms, env, parseFloat).Success?
    ensures !Targeted(ms, env, s, k) ==> Entry(ApplyAll(data, ms, env, parseFloat).value, s, k) == Entry(data, s, k)
    ensures !SectionTargeted(ms, env, s) ==> SectionAt(ApplyAll(data, ms, env, parseFloat).value, s) == SectionAt(data, s)
    decreases |ms|
  {
    if |ms| > 0 {
      var next := ApplyOverride(data, ms[0], env, parseFloat).value;
      ApplyAllUntouched(next, ms[1..], env, parseFloat, s, k);
    }
  }

  /** Every set row's converted value is in place at the end. */
  lemma {:induction false} ApplyAllWrites(data: map<string, Value>, ms: seq<Mapping>, env: map<string, string>,
                                          parseFloat: string -> Option<real>, i: nat)
    requires DistinctTargets(ms)
    requires ApplyAll(data, ms, env, parseFloat).Success?
    requires i < |ms| && ms[i].envVar in env
    ensures Convert(ms[i], env[ms[i].envVar], parseFloat).Success?
    ensures Entry(ApplyAll(data, ms, env, parseFloat).value, ms[i].section, ms[i].key)
         == Some(Convert(ms[i], env[ms[i].envVar], parseFloat).value)
    decreases |ms|
  {
    ApplyAllFailure(data, ms, env, parseFloat);
    var next := ApplyOverride(data, ms[0], env, parseFloat).value;
    if i == 0 {
      ApplyAllUntouched(next, ms[1..], env, parseFloat, ms[0].section, ms[0].key);
    } else {
      assert ms[1..][i - 1] == ms[i];
      ApplyAllWrites(next, ms[1..], env, parseFloat, i - 1);
    }
  }

  /** With none of the table's variables set, the document is unchanged. */
  lemma {:induction false} ApplyAllUnset(data: map<string, Value>, ms: seq<Mapping>, env: map<string, string>,
                                         parseFloat: string -> Option<real>)
    requires forall i :: 0 <= i < |ms| ==> ms[i].envVar !in env
    ensures ApplyAll(data, ms, env, parseFloat) == Success(data)
    decreases |ms|
  {
    if |ms| > 0 {
      assert ms[0].envVar !in env;
      ApplyAllUnset(data, ms[1..], env, parseFloat);
    }
  }

  /** `_apply_env_overrides`. */
  function ApplyEnvOverrides(data: map<string, Value>, env: map<string, string>,
                             parseFloat: string -> Option<real>): (r: Result<map<string, Value>, ConfigError>)
  {
    ApplyAll(data, EnvMappings, env, parseFloat)
  }

  /** The table writes each (section, key) entry through one variable only. */
  lemma EnvMappingsDistinct()
    ensures DistinctTargets(EnvMappings)
  {
  }

  // ---------------------------------------------------------------------
  // The configuration dataclasses. Python does not check the annotated field
  // types, so each field holds whatever value the document or the override
  // put there.

  datatype RedisConfig = RedisConfig(host: Value, port: Value, db: Value, password: Value)
  datatype EmbeddingConfig = EmbeddingConfig(model: Value, batchSize: Value, cacheEmbeddings: Value)
  datatype PdfProcessingConfig = PdfProcessingConfig(maxFileSizeMb: Value, ocrEnabled: Value, preserveFormatting: Value)
  datatype SearchConfig = SearchConfig(defaultMaxResults: Value, similarityThreshold: Value, enableKeywordFallback: Value)
  datatype McpConfig = McpConfig(serverName: Value, version: Value)
  datatype LoggingConfig = LoggingConfig(level: Value, format: Value)

  datatype Config = Config(redis: RedisConfig, embedding: EmbeddingConfig, pdfProcessing: PdfProcessingConfig,
                           search: SearchConfig, mcp: McpConfig, logging: LoggingConfig)

  const RedisNames: set<string> := {"host", "port", "db", "password"}
  const EmbeddingNames: set<string> := {"model", "batch_size", "cache_embeddings"}
  const PdfNames: set<string> := {"max_file_size_mb", "ocr_enabled", "preserve_formatting"}
  const SearchNames: set<string> := {"default_max_results", "similarity_threshold", "enable_keyword_fallback"}
  const McpNames: set<string> := {"server_name", "version"}
  const LoggingNames: set<string> := {"level", "format"}

  /** Each section and the fields of its dataclass. */
  const Schema: map<string, set<string>> := map[
    "redis" := RedisNames, "embedding" := EmbeddingNames, "pdf_processing" := PdfNames,
    "search" := SearchNames, "mcp" := McpNames, "logging" := LoggingNames]

  /** The dataclass defaults. */
  const DefaultConfig: Config := Config(
    RedisConfig(Str("localhost"), Int(6379), Int(0), Null),
    EmbeddingConfig(Str("all-MiniLM-L6-v2"), Int(32), Bool(true)),
    PdfProcessingConfig(Int(100), Bool(true), Bool(true)),
    SearchConfig(Int(5), Float(0.7), Bool(true)),
    McpConfig(Str("ttrpg-assistant"), Str("1.0.0")),
    LoggingConfig(Str("INFO"), Str("%(asctime)s - %(name)s - %(levelname)s - %(message)s")))

  function RedisFields(x: RedisConfig): map<string, Value>
  {
    map["host" := x.host, "port" := x.port, "db" := x.db, "password" := x.password]
  }

  function EmbeddingFields(x: EmbeddingConfig): map<string, Value>
  {
    map["model" := x.model, "batch_size" := x.batchSize, "cache_embeddings" := x.cacheEmbeddings]
  }

  function PdfFields(x: PdfProcessingConfig): map<string, Value>
  {
    map["max_file_size_mb" := x.maxFileSizeMb, "ocr_enabled" := x.ocrEnabled,
        "preserve_formatting" := x.preserveFormatting]
  }

  function SearchFields(x: SearchConfig): map<string, Value>
  {
    map["default_max_results" := x.defaultMaxResults, "similarity_threshold" := x.similarityThreshold,
        "enable_keyword_fallback" := x.enableKeywordFallback]
  }

  function McpFields(x: McpConfig): map<string, Value>
  {
    map["server_name" := x.serverName, "version" := x.version]
  }

  function LoggingFields(x: LoggingConfig): map<string, Value>
  {
    map["level" := x.level, "format" := x.format]
  }

  /** `save_config`: the document written to YAML (the dump itself is not modelled). */
  function SaveConfig(c: Config): map<string, Value>
  {
    map["redis" := Dict(RedisFields(c.redis)), "embedding" := Dict(EmbeddingFields(c.embedding)),
        "pdf_processing" := Dict(PdfFields(c.pdfProcessing)), "search" := Dict(SearchFields(c.search)),
        "mcp" := Dict(McpFields(c.mcp)), "logging" := Dict(LoggingFields(c.logging))]
  }

  /** `data.get(name, {})` expanded as keyword arguments: it must be a mapping
      naming only fields of the section's dataclass. */
  function SectionArgs(data: map<string, Value>, name: string, names: set<string>)
    : (r: Result<map<string, Value>, ConfigError>)
    ensures r.Success? <==> SectionOk(data, name, names)
    ensures r.Success? ==> r.value == (if name in data then data[name].fields else map[])
  {
    var v := GetOr(data, name, Dict(map[]));
    if !v.Dict? then Failure(NotAMapping(name))
    else if !(v.fields.Keys <= names) then Failure(UnexpectedField(name))
    else Success(v.fields)
  }

  predicate SectionOk(data: map<string, Value>, name: string, names: set<string>)
  {
    name !in data || (data[name].Dict? && data[name].fields.Keys <= names)
  }

  /** Every section can be expanded into its dataclass. */
  predicate SectionsOk(data: map<string, Value>)
  {
    && SectionOk(data, "redis", RedisNames) && SectionOk(data, "embedding", EmbeddingNames)
    && SectionOk(data, "pdf_processing", PdfNames) && SectionOk(data, "search", SearchNames)
    && SectionOk(data, "mcp", McpNames) && SectionOk(data, "logging", LoggingNames)
  }

  /** `RedisConfig(**args)`: each field given is taken, the others keep their default. */
  function LoadRedis(args: map<string, Value>): (x: RedisConfig)
    ensures args.Keys <= RedisNames ==> RedisFields(x) == RedisFields(DefaultConfig.redis) + args
  {
    var d := DefaultConfig.redis;
    RedisConfig(GetOr(args, "host", d.host), GetOr(args, "port", d.port), GetOr(args, "db", d.db),
                GetOr(args, "password", d.password))
  }

  function LoadEmbedding(args: map<string, Value>): (x: EmbeddingConfig)
    ensures args.Keys <= EmbeddingNames ==> EmbeddingFields(x) == EmbeddingFields(DefaultConfig.embedding) + args
  {
    var d := DefaultConfig.embedding;
    EmbeddingConfig(GetOr(args, "model", d.model), GetOr(args, "batch_size", d.batchSize),
                    GetOr(args, "cache_embeddings", d.cacheEmbeddings))
  }

  function LoadPdf(args: map<string, Value>): (x: PdfProcessingConfig)
    ensures args.Keys <= PdfNames ==> PdfFields(x) == PdfFields(DefaultConfig.pdfProcessing) + args
  {
    var d := DefaultConfig.pdfProcessing;
    PdfProcessingConfig(GetOr(args, "max_file_size_mb", d.maxFileSizeMb), GetOr(args, "ocr_enabled", d.ocrEnabled),
                        GetOr(args, "preserve_formatting", d.preserveFormatting))
  }

  function LoadSearch(args: map<string, Value>): (x: SearchConfig)
    ensures args.Keys <= SearchNames ==> SearchFields(x) == SearchFields(DefaultConfig.search) + args
  {
    var d := DefaultConfig.search;
    SearchConfig(GetOr(args, "default_max_results", d.defaultMaxResults),
                 GetOr(args, "similarity_threshold", d.similarityThreshold),
                 GetOr(args, "enable_keyword_fallback", d.enableKeywordFallback))
  }

  function LoadMcp(args: map<string, Value>): (x: McpConfig)
    ensures args.Keys <= McpNames ==> McpFields(x) == McpFields(DefaultConfig.mcp) + args
  {
    var d := DefaultConfig.mcp;
    McpConfig(GetOr(args, "server_name", d.serverName), GetOr(args, "version", d.version))
  }

  function LoadLogging(args: map<string, Value>): (x: LoggingConfig)
    ensures args.Keys <= LoggingNames ==> LoggingFields(x) == LoggingFields(DefaultConfig.logging) + args
  {
    var d := DefaultConfig.logging;
    LoggingConfig(GetOr(args, "level", d.level), GetOr(args, "format", d.format))
  }

  /** The dataclasses built from a document whose overrides are applied. */
  function LoadSections(data: map<string, Value>): (r: Result<Config, ConfigError>)
    ensures r.Success? <==> SectionsOk(data)
  {
    var redis :- SectionArgs(data, "redis", RedisNames);
    var embedding :- SectionArgs(data, "embedding", EmbeddingNames);
    var pdf :- SectionArgs(data, "pdf_processing", PdfNames);
    var search :- SectionArgs(data, "search", SearchNames);
    var mcp :- SectionArgs(data, "mcp", McpNames);
    var logging :- SectionArgs(data, "logging", LoggingNames);
    Success(Config(LoadRedis(redis), LoadEmbedding(embedding), LoadPdf(pdf), LoadSearch(search), LoadMcp(mcp),
                   LoadLogging(logging)))
  }

  /** `load_config` on an already-parsed document (`{}` when there is no
      file); `env` holds the environment variables that are set. */
  function LoadConfig(doc: map<string, Value>, env: map<string, string>,
                      parseFloat: string -> Option<real>): (r: Result<Config, ConfigError>)
    ensures r.Success? <==> ApplyEnvOverrides(doc, env, parseFloat).Success?
                            && SectionsOk(ApplyEnvOverrides(doc, env, parseFloat).value)
  {
    var data :- ApplyEnvOverrides(doc, env, parseFloat);
    LoadSections(data)
  }

  /** The fields of section `s` of a configuration, as `save_config` writes them. */
  function ConfigSection(c: Config, s: string): map<string, Value>
  {
    if s == "redis" then RedisFields(c.redis)
    else if s == "embedding" then EmbeddingFields(c.embedding)
    else if s == "pdf_processing" then PdfFields(c.pdfProcessing)
    else if s == "search" then SearchFields(c.search)
    else if s == "mcp" then McpFields(c.mcp)
    else if s == "logging" then LoggingFields(c.logging)
    else map[]
  }

  /** `save_config` writes exactly the six sections. */
  lemma SaveConfigSections(c: Config)
    ensures SaveConfig(c).Keys == Schema.Keys
    ensures var d := SaveConfig(c);
      && d["redis"] == Dict(ConfigSection(c, "redis")) && d["embedding"] == Dict(ConfigSection(c, "embedding"))
      && d["pdf_processing"] == Dict(ConfigSection(c, "pdf_processing"))
    ensures var d := SaveConfig(c);
      && d["search"] == Dict(ConfigSection(c, "search")) && d["mcp"] == Dict(ConfigSection(c, "mcp"))
      && d["logging"] == Dict(ConfigSection(c, "logging"))
  {
  }

  /** Each section holds every field of its dataclass and nothing else. */
  lemma ConfigSectionFields(c: Config)
    ensures forall s :: s in Schema ==> ConfigSection(c, s).Keys == Schema[s]
  {
  }

  /** The keyword arguments a section contributes (none when it is absent). */
  function Args(data: map<string, Value>, s: string): map<string, Value>
  {
    if s in data && data[s].Dict? then data[s].fields else map[]
  }

  /** Every section built is its defaults overridden by the arguments the
      document gives for it. */
  lemma SectionsFromArgs(data: map<string, Value>)
    requires SectionsOk(data)
    ensures var c := LoadSections(data).value;
      && RedisFields(c.redis) == RedisFields(DefaultConfig.redis) + Args(data, "redis")
      && EmbeddingFields(c.embedding) == EmbeddingFields(DefaultConfig.embedding) + Args(data, "embedding")
      && PdfFields(c.pdfProcessing) == PdfFields(DefaultConfig.pdfProcessing) + Args(data, "pdf_processing")
    ensures var c := LoadSections(data).value;
      && SearchFields(c.search) == SearchFields(DefaultConfig.search) + Args(data, "search")
      && McpFields(c.mcp) == McpFields(DefaultConfig.mcp) + Args(data, "mcp")
      && LoggingFields(c.logging) == LoggingFields(DefaultConfig.logging) + Args(data, "logging")
  {
  }

  /** Field `k` of section `s`, if the section's dataclass has it. */
  function FieldOf(c: Config, s: string, k: string): Option<Value>
  {
    var f := ConfigSection(c, s);
    if k in f then Some(f[k]) else None
  }

  /** One field of a built section: the document's entry if there is one, else the default. */
  lemma SectionEntry(data: map<string, Value>, s: string, k: string)
    requires SectionsOk(data)
    requires s in Schema && k in Schema[s]
    ensures FieldOf(DefaultConfig, s, k).Some?
    ensures FieldOf(LoadSections(data).value, s, k) == Some(Entry(data, s, k).GetOr(FieldOf(DefaultConfig, s, k).value))
  {
    if s in {"redis", "embedding"} {
      SectionEntryStorage(data, s, k);
    } else if s in {"pdf_processing", "search"} {
      SectionEntryProcessing(data, s, k);
    } else {
      SectionEntryServer(data, s, k);
    }
  }

  lemma SectionEntryStorage(data: map<string, Value>, s: string, k: string)
    requires SectionsOk(data)
    requires s in {"redis", "embedding"} && k in Schema[s]
    ensures FieldOf(DefaultConfig, s, k).Some?
    ensures FieldOf(LoadSections(data).value, s, k) == Some(Entry(data, s, k).GetOr(FieldOf(DefaultConfig, s, k).value))
  {
    var c := LoadSections(data).value;
    SectionsFromArgs(data);
    if s == "redis" {
      Overlay(ConfigSection(DefaultConfig, s), ConfigSection(c, s), data, s, k);
    } else {
      Overlay(ConfigSection(DefaultConfig, s), ConfigSection(c, s), data, s, k);
    }
  }

  lemma SectionEntryProcessing(data: map<string, Value>, s: string, k: string)
    requires SectionsOk(data)
    requires s in {"pdf_processing", "search"} && k in Schema[s]
    ensures FieldOf(DefaultConfig, s, k).Some?
    ensures FieldOf(LoadSections(data).value, s, k) == Some(Entry(data, s, k).GetOr(FieldOf(DefaultConfig, s, k).value))
  {
    var c := LoadSections(data).value;
    SectionsFromArgs(data);
    if s == "pdf_processing" {
      Overlay(ConfigSection(DefaultConfig, s), ConfigSection(c, s), data, s, k);
    } else {
      Overlay(ConfigSection(DefaultConfig, s), ConfigSection(c, s), data, s, k);
    }
  }

  lemma SectionEntryServer(data: map<string, Value>, s: string, k: string)
    requires SectionsOk(data)
    requires s in {"mcp", "logging"} && k in Schema[s]
    ensures FieldOf(DefaultConfig, s, k).Some?
    ensures FieldOf(LoadSections(data).value, s, k) == Some(Entry(data, s, k).GetOr(FieldOf(DefaultConfig, s, k).value))
  {
    var c := LoadSections(data).value;
    SectionsFromArgs(data);
    if s == "mcp" {
      Overlay(ConfigSection(DefaultConfig, s), ConfigSection(c, s), data, s, k);
    } else {
      Overlay(ConfigSection(DefaultConfig, s), ConfigSection(c, s), data, s, k);
    }
  }

  /** A field of defaults overlaid with a section's arguments. */
  lemma Overlay(defaults: map<string, Value>, got: map<string, Value>, data: map<string, Value>, s: string, k: string)
    requires got == defaults + Args(data, s) && k in defaults
    ensures k in got && got[k] == Entry(data, s, k).GetOr(defaults[k])
  {
  }

  /** Every row of the table names a field of its section's dataclass. */
  lemma EnvMappingsInSchema()
    ensures forall i :: 0 <= i < |EnvMappings| ==>
              EnvMappings[i].section in Schema && EnvMappings[i].key in Schema[EnvMappings[i].section]
  {
  }

  /** A loaded configuration is built from the overridden document. */
  lemma LoadConfigSteps(doc: map<string, Value>, env: map<string, string>, parseFloat: string -> Option<real>)
    requires LoadConfig(doc, env, parseFloat).Success?
    ensures ApplyEnvOverrides(doc, env, parseFloat).Success?
    ensures SectionsOk(ApplyEnvOverrides(doc, env, parseFloat).value)
    ensures LoadConfig(doc, env, parseFloat) == LoadSections(ApplyEnvOverrides(doc, env, parseFloat).value)
  {
  }

  /** A set environment variable decides its field, whatever the document says. */
  lemma LoadOverride(doc: map<string, Value>, env: map<string, string>, parseFloat: string -> Option<real>, i: nat)
    requires LoadConfig(doc, env, parseFloat).Success?
    requires i < |EnvMappings| && EnvMappings[i].envVar in env
    ensures var m := EnvMappings[i];
      && Convert(m, env[m.envVar], parseFloat).Success?
      && FieldOf(LoadConfig(doc, env, parseFloat).value, m.section, m.key) == Some(Convert(m, env[m.envVar], parseFloat).value)
  {
    var m := EnvMappings[i];
    var data := ApplyEnvOverrides(doc, env, parseFloat).value;
    LoadConfigSteps(doc, env, parseFloat);
    EnvMappingsInSchema();
    EnvMappingsDistinct();
    ApplyAllWrites(doc, EnvMappings, env, parseFloat, i);
    SectionEntry(data, m.section, m.key);
  }

  /** A field no set variable writes comes from the document, or is the default. */
  lemma LoadKeepsDocument(doc: map<string, Value>, env: map<string, string>, parseFloat: string -> Option<real>,
                          s: string, k: string)
    requires LoadConfig(doc, env, parseFloat).Success?
    requires s in Schema && k in Schema[s] && !Targeted(EnvMappings, env, s, k)
    ensures FieldOf(DefaultConfig, s, k).Some?
    ensures FieldOf(LoadConfig(doc, env, parseFloat).value, s, k)
         == Some(Entry(doc, s, k).GetOr(FieldOf(DefaultConfig, s, k).value))
  {
    var data := ApplyEnvOverrides(doc, env, parseFloat).value;
    LoadConfigSteps(doc, env, parseFloat);
    ApplyAllUntouched(doc, EnvMappings, env, parseFloat, s, k);
    SectionEntry(data, s, k);
  }

  /** A section missing from the document, with none of its variables set,
      is the dataclass default. */
  lemma AbsentSectionDefaults(doc: map<string, Value>, env: map<string, string>,
                              parseFloat: string -> Option<real>, s: string)
    requires LoadConfig(doc, env, parseFloat).Success?
    requires s in Schema && s !in doc && !SectionTargeted(EnvMappings, env, s)
    ensures ConfigSection(LoadConfig(doc, env, parseFloat).value, s) == ConfigSection(DefaultConfig, s)
  {
    var data := ApplyEnvOverrides(doc, env, parseFloat).value;
    LoadConfigSteps(doc, env, parseFloat);
    ApplyAllUntouched(doc, EnvMappings, env, parseFloat, s, "");
    assert SectionAt(data, s) == SectionAt(doc, s) == None;
    SectionWithoutArgs(data, s);
  }

  /** With no file and no variables, every field is its default. */
  lemma LoadWithoutFile(parseFloat: string -> Option<real>)
    ensures LoadConfig(map[], map[], parseFloat) == Success(DefaultConfig)
  {
    ApplyAllUnset(map[], EnvMappings, map[], parseFloat);
  }

  /** Loading what `save_config` wrote, with no variables set, gives the
      configuration back. */
  lemma SaveLoadRoundTrip(c: Config, parseFloat: string -> Option<real>)
    ensures LoadConfig(SaveConfig(c), map[], parseFloat) == Success(c)
  {
    ApplyAllUnset(SaveConfig(c), EnvMappings, map[], parseFloat);
    SectionsRoundTrip(c);
  }

  lemma SectionsRoundTrip(c: Config)
    ensures LoadSections(SaveConfig(c)) == Success(c)
  {
    SaveConfigArgs(c);
    FieldsLoadBack(c);
  }

  /** The arguments each saved section contributes are its own fields. */
  lemma SaveConfigArgs(c: Config)
    ensures var d := SaveConfig(c);
      && SectionArgs(d, "redis", RedisNames) == Success(RedisFields(c.redis))
      && SectionArgs(d, "embedding", EmbeddingNames) == Success(EmbeddingFields(c.embedding))
      && SectionArgs(d, "pdf_processing", PdfNames) == Success(PdfFields(c.pdfProcessing))
    ensures var d := SaveConfig(c);
      && SectionArgs(d, "search", SearchNames) == Success(SearchFields(c.search))
      && SectionArgs(d, "mcp", McpNames) == Success(McpFields(c.mcp))
      && SectionArgs(d, "logging", LoggingNames) == Success(LoggingFields(c.logging))
  {
    SaveConfigSections(c);
  }

  /** Building a dataclass from its own fields gives it back. */
  lemma FieldsLoadBack(c: Config)
    ensures LoadRedis(RedisFields(c.redis)) == c.redis
    ensures LoadEmbedding(EmbeddingFields(c.embedding)) == c.embedding
    ensures LoadPdf(PdfFields(c.pdfProcessing)) == c.pdfProcessing
    ensures LoadSearch(SearchFields(c.search)) == c.search
    ensures LoadMcp(McpFields(c.mcp)) == c.mcp
    ensures LoadLogging(LoggingFields(c.logging)) == c.logging
  {
  }

  /** A section the document does not have is its dataclass default. */
  lemma SectionWithoutArgs(data: map<string, Value>, s: string)
    requires SectionsOk(data) && s in Schema && s !in data
    ensures ConfigSection(LoadSections(data).value, s) == ConfigSection(DefaultConfig, s)
  {
    var c := LoadSections(data).value;
    SectionsFromArgs(data);
    if s == "redis" {
      assert ConfigSection(c, s) == RedisFields(c.redis);
    } else if s == "embedding" {
      assert ConfigSection(c, s) == EmbeddingFields(c.embedding);
    } else if s == "pdf_processing" {
      assert ConfigSection(c, s) == PdfFields(c.pdfProcessing);
    } else if s == "search" {
      assert ConfigSection(c, s) == SearchFields(c.search);
    } else if s == "mcp" {
      assert ConfigSection(c, s) == McpFields(c.mcp);
    } else if s == "logging" {
      assert ConfigSection(c, s) == LoggingFields(c.logging);
    } else {
      assert false;
    }
  }
}
