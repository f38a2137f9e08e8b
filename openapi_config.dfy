/** The generator's configuration: the info section, servers, security
    schemes, global tags and security requirements that are copied into the
    document, and where the document is written. */
module OpenApiConfig {
  import opened Values

  const DefaultOutputPath: string := "docs/openapi.yaml"

  /** The seven settings; every array setting is the entry list of a PHP
      array. */
  datatype Config = Config(
    info: Schema,
    servers: Schema,
    securitySchemes: Schema,
    tags: Schema,
    security: Schema,
    outputPath: string,
    generateJson: bool)

  /** `new OpenApiConfig()`: every array empty, the output path
      `docs/openapi.yaml`, JSON output on. */
  function Defaults(): Config {
    Config([], [], [], [], [], DefaultOutputPath, true)
  }

  /** `is_array($config[key] ?? null) ? $config[key] : []`. */
  function ArraySetting(config: Schema, key: string): Schema {
    var v := OrNull(Get(config, KStr(key)));
    if IsArray(v) then v.entries else []
  }

  /** `is_string($config['outputPath'] ?? null) ? ... : 'docs/openapi.yaml'`. */
  function OutputPathSetting(config: Schema): string {
    var v := OrNull(Get(config, KStr("outputPath")));
    if v.Str? then v.s else DefaultOutputPath
  }

  /** `is_bool($config['generateJson'] ?? null) ? ... : true`. */
  function GenerateJsonSetting(config: Schema): bool {
    var v := OrNull(Get(config, KStr("generateJson")));
    if v.Bool? then v.b else true
  }

  /** `fromArray`: each setting taken when present with the right type, its
      default otherwise. */
  function FromArray(config: Schema): Config {
    Config(
      ArraySetting(config, "info"),
      ArraySetting(config, "servers"),
      ArraySetting(config, "securitySchemes"),
      ArraySetting(config, "tags"),
      ArraySetting(config, "security"),
      OutputPathSetting(config),
      GenerateJsonSetting(config))
  }

  /** The keys `toArray` produces, in order; `fromArray` reads no others. */
  const ConfigKeys: seq<Key> := [KStr("info"), KStr("servers"), KStr("securitySchemes"), KStr("tags"),
                                 KStr("security"), KStr("outputPath"), KStr("generateJson")]

  /** `toArray`. */
  function ToArray(c: Config): Schema {
    [Entry(KStr("info"), Arr(c.info)),
     Entry(KStr("servers"), Arr(c.servers)),
     Entry(KStr("securitySchemes"), Arr(c.securitySchemes)),
     Entry(KStr("tags"), Arr(c.tags)),
     Entry(KStr("security"), Arr(c.security)),
     Entry(KStr("outputPath"), Str(c.outputPath)),
     Entry(KStr("generateJson"), Bool(c.generateJson))]
  }

  /** `toArray` lists the seven settings once each, in declaration order. */
  lemma ToArrayKeys(c: Config)
    ensures Keys(ToArray(c)) == ConfigKeys
    ensures UniqueKeys(ToArray(c))
  {
    var a := ToArray(c);
    assert Keys(a[6..]) == [KStr("generateJson")];
    assert Keys(a[5..]) == [KStr("outputPath")] + Keys(a[6..]);
    assert Keys(a[4..]) == [KStr("security")] + Keys(a[5..]);
    assert Keys(a[3..]) == [KStr("tags")] + Keys(a[4..]);
    assert Keys(a[2..]) == [KStr("securitySchemes")] + Keys(a[3..]);
    assert Keys(a[1..]) == [KStr("servers")] + Keys(a[2..]);
    forall i, j | 0 <= i < j < |a| ensures a[i].key != a[j].key {
      assert a[i].key == ConfigKeys[i] && a[j].key == ConfigKeys[j];
    }
  }

  /** The value `toArray` stores under each setting's key. */
  lemma ToArrayGets(c: Config)
    ensures var a := ToArray(c);
      && Get(a, KStr("info")) == Some(Arr(c.info))
      && Get(a, KStr("servers")) == Some(Arr(c.servers))
      && Get(a, KStr("securitySchemes")) == Some(Arr(c.securitySchemes))
      && Get(a, KStr("tags")) == Some(Arr(c.tags))
      && Get(a, KStr("security")) == Some(Arr(c.security))
      && Get(a, KStr("outputPath")) == Some(Str(c.outputPath))
      && Get(a, KStr("generateJson")) == Some(Bool(c.generateJson))
  {
    var a := ToArray(c);
    ToArrayKeys(c);
    forall i | 0 <= i < |a| ensures Get(a, a[i].key) == Some(a[i].value) {
      GetUnique(a, i);
    }
    assert a[1].key == KStr("servers") && a[2].key == KStr("securitySchemes") && a[3].key == KStr("tags");
    assert a[4].key == KStr("security") && a[5].key == KStr("outputPath") && a[6].key == KStr("generateJson");
  }

  /** `fromArray(toArray(c))` is c: the array form loses nothing. */
  lemma FromArrayToArray(c: Config)
    ensures FromArray(ToArray(c)) == c
  {
    ToArrayGets(c);
  }

  /** What an array setting given as o comes back as: o when it is an
      array, the empty array otherwise. */
  function ArrayOrEmpty(o: Option<Value>): Value {
    if o.Some? && o.value.Arr? then o.value else Arr([])
  }

  /** `toArray(fromArray(config))` keeps every array setting the
      configuration gave as an array and replaces the others by the empty
      array. */
  lemma ToArrayFromArrayArrays(config: Schema)
    ensures var back := ToArray(FromArray(config));
      && Get(back, KStr("info")) == Some(ArrayOrEmpty(Get(config, KStr("info"))))
      && Get(back, KStr("servers")) == Some(ArrayOrEmpty(Get(config, KStr("servers"))))
      && Get(back, KStr("securitySchemes")) == Some(ArrayOrEmpty(Get(config, KStr("securitySchemes"))))
      && Get(back, KStr("tags")) == Some(ArrayOrEmpty(Get(config, KStr("tags"))))
      && Get(back, KStr("security")) == Some(ArrayOrEmpty(Get(config, KStr("security"))))
  {
    ToArrayGets(FromArray(config));
    ArraySettingBack(config, "info");
    ArraySettingBack(config, "servers");
    ArraySettingBack(config, "securitySchemes");
    ArraySettingBack(config, "tags");
    ArraySettingBack(config, "security");
  }

  /** One array setting read by `fromArray` and written back by `toArray`. */
  lemma ArraySettingBack(config: Schema, key: string)
    ensures Arr(ArraySetting(config, key)) == ArrayOrEmpty(Get(config, KStr(key)))
  {
  }

  /** `toArray(fromArray(config))` keeps a string output path and a boolean
      JSON flag, and replaces them by their defaults otherwise. */
  lemma ToArrayFromArrayScalars(config: Schema)
    ensures var back := ToArray(FromArray(config));
      var p, j := Get(config, KStr("outputPath")), Get(config, KStr("generateJson"));
      && Get(back, KStr("outputPath")) == Some(if p.Some? && p.value.Str? then p.value else Str(DefaultOutputPath))
      && Get(back, KStr("generateJson")) == Some(if j.Some? && j.value.Bool? then j.value else Bool(true))
  {
    ToArrayGets(FromArray(config));
  }

  /** `fromArray([])` is the constructor's defaults. */
  lemma FromArrayEmpty()
    ensures FromArray([]) == Defaults()
  {
    var e: Schema := [];
    assert forall k :: Get(e, k) == None;
  }

  /** `fromArray` reads only the seven setting keys: configurations that
      agree on them give the same settings. */
  lemma FromArrayOnlyReadsConfigKeys(a: Schema, b: Schema)
    requires forall k :: k in ConfigKeys ==> Get(a, k) == Get(b, k)
    ensures FromArray(a) == FromArray(b)
  {
    assert Get(a, KStr("info")) == Get(b, KStr("info"));
    assert Get(a, KStr("servers")) == Get(b, KStr("servers"));
    assert Get(a, KStr("securitySchemes")) == Get(b, KStr("securitySchemes"));
    assert Get(a, KStr("tags")) == Get(b, KStr("tags"));
    assert Get(a, KStr("security")) == Get(b, KStr("security"));
    assert Get(a, KStr("outputPath")) == Get(b, KStr("outputPath"));
    assert Get(a, KStr("generateJson")) == Get(b, KStr("generateJson"));
  }

  /** `default()`: a titled info section and one local server; every other
      setting is the constructor's default. */
  function Default(): Config {
    Config(
      [Entry(KStr("title"), Str("API Documentation")),
       Entry(KStr("version"), Str("1.0.0")),
       Entry(KStr("description"), Str("Generated API documentation"))],
      [Entry(KInt(0), Arr([Entry(KStr("url"), Str("http://localhost:8080")),
                           Entry(KStr("description"), Str("Local development"))]))],
      [], [], [], DefaultOutputPath, true)
  }

  /** The default configuration has the info fields an OpenAPI document
      requires, a single server at index 0, and the defaults otherwise. */
  lemma DefaultShape()
    ensures var d := Default();
      && Keys(d.info) == [KStr("title"), KStr("version"), KStr("description")]
      && Get(d.info, KStr("title")) == Some(Str("API Documentation"))
      && Get(d.info, KStr("version")) == Some(Str("1.0.0"))
      && Keys(d.servers) == [KInt(0)]
      && Get(d.servers, KInt(0)).Some? && Get(d.servers, KInt(0)).value.Arr?
      && Get(Get(d.servers, KInt(0)).value.entries, KStr("url")) == Some(Str("http://localhost:8080"))
      && d.(info := [], servers := []) == Defaults()
  {
    var i := Default().info;
    assert i[1..][1..] == [Entry(KStr("description"), Str("Generated API documentation"))];
    assert Keys(i[1..]) == [KStr("version"), KStr("description")];
  }
}
