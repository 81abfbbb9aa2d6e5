/** The schema half of the logical point format: collection configurations, named vector fields,
    the export header and hexadecimal text for packed binary values. */
module PointSchema {
  import opened Basics
  import opened Protocol

  // ---------------------------------------------------------------- configurations

  /** `CollectionConfig`. The fingerprint takes no part in comparisons. */
  datatype Config = Config(
    dimension: int, annMetric: string, scalarKind: string, m: int, m0: int, efConstruction: int, defaultEfSearch: int,
    maxEfSearch: int, maxLevel: int, rebuildInactivePercent: int, deltaMaxPoints: int, levelSeed: int,
    fingerprint: Option<int>)
  {
    function Bare(): Config { this.(fingerprint := None) }
  }

  const ANN_METRICS := {"dot", "l2", "cosine"}
  const SCALAR_KINDS := {"f32", "bf16", "f16", "i8"}

  predicate ValidConfig(c: Config) {
    && c.dimension > 0 && c.annMetric in ANN_METRICS && c.scalarKind in SCALAR_KINDS
    && 0 <= c.levelSeed <= 0xFFFF_FFFF_FFFF_FFFF
  }

  const CONFIG_INTS := {
    "dimension", "m", "m0", "ef_construction", "default_ef_search", "max_ef_search", "max_level",
    "rebuild_inactive_percent", "delta_max_points", "level_seed" }
  const CONFIG_KEYS := CONFIG_INTS + {"ann_metric", "scalar_kind"}

  /** `_config_json` */
  function ConfigJson(c: Config): map<string, Json> {
    map["dimension" := Int(c.dimension), "ann_metric" := Str(c.annMetric), "scalar_kind" := Str(c.scalarKind),
        "m" := Int(c.m), "m0" := Int(c.m0), "ef_construction" := Int(c.efConstruction),
        "default_ef_search" := Int(c.defaultEfSearch), "max_ef_search" := Int(c.maxEfSearch), "max_level" := Int(c.maxLevel),
        "rebuild_inactive_percent" := Int(c.rebuildInactivePercent), "delta_max_points" := Int(c.deltaMaxPoints),
        "level_seed" := Int(c.levelSeed)]
  }

  /** `CollectionConfig(**_object(value, _CONFIG_KEYS, ...))` */
  function ConfigOf(j: Json): Result<Config> {
    if !j.Obj? || j.members.Keys != CONFIG_KEYS then Err
    else
      var o := j.members;
      if (exists f :: f in CONFIG_INTS && !o[f].Int?) || !o["ann_metric"].Str? || !o["scalar_kind"].Str? then Err
      else
        var c := Config(o["dimension"].n, o["ann_metric"].s, o["scalar_kind"].s, o["m"].n, o["m0"].n, o["ef_construction"].n,
                        o["default_ef_search"].n, o["max_ef_search"].n, o["max_level"].n, o["rebuild_inactive_percent"].n,
                        o["delta_max_points"].n, o["level_seed"].n, None);
        if ValidConfig(c) then Ok(c) else Err
  }

  lemma ConfigRoundTrip(c: Config)
    requires ValidConfig(c)
    ensures ConfigOf(Obj(ConfigJson(c))) == Ok(c.Bare())
  {
    var o := ConfigJson(c);
    assert o.Keys == CONFIG_KEYS;
    forall f | f in CONFIG_INTS ensures o[f].Int? {}
  }

  // ---------------------------------------------------------------- named fields

  datatype VectorField = VectorField(dimension: int, dtype: string, kind: string, metric: string, hnsw: Option<Config>)
  {
    function Bare(): VectorField { this.(hnsw := if hnsw.None? then None else Some(hnsw.value.Bare())) }
  }

  const DTYPES := {"f32", "bf16", "f16", "i8", "u8", "binary"}

  /** `VectorField.__post_init__` returns rather than raises. */
  predicate ValidField(f: VectorField) {
    && 0 <= f.dimension <= 0xFFFF_FFFF
    && f.dtype in DTYPES
    && (if f.kind == "dense" || f.kind == "multivector" then
          f.dimension != 0 && f.dtype != "binary" && f.metric in ANN_METRICS
        else if f.kind == "sparse" then
          f.dimension == 0 && f.dtype == "f32" && f.metric == "dot"
        else
          f.kind == "binary" && f.dimension != 0 && f.dtype == "binary" && (f.metric == "hamming" || f.metric == "jaccard"))
    && (f.hnsw.Some? ==> f.kind == "dense" && f.hnsw.value.dimension == f.dimension && f.hnsw.value.annMetric == f.metric)
  }

  const FIELD_KEYS := {"dimension", "dtype", "kind", "metric", "hnsw"}

  function FieldJson(f: VectorField): map<string, Json> {
    map["dimension" := Int(f.dimension), "dtype" := Str(f.dtype), "kind" := Str(f.kind), "metric" := Str(f.metric),
        "hnsw" := if f.hnsw.None? then Null else Obj(ConfigJson(f.hnsw.value))]
  }

  function FieldOf(j: Json): Result<VectorField> {
    if !j.Obj? || j.members.Keys != FIELD_KEYS then Err
    else
      var o := j.members;
      var hnsw := if o["hnsw"].Null? then Ok(None) else match ConfigOf(o["hnsw"]) case Err => Err case Ok(c) => Ok(Some(c));
      if hnsw.Err? || !o["dimension"].Int? || !o["dtype"].Str? || !o["kind"].Str? || !o["metric"].Str? then Err
      else
        var f := VectorField(o["dimension"].n, o["dtype"].s, o["kind"].s, o["metric"].s, hnsw.value);
        if ValidField(f) then Ok(f) else Err
  }

  lemma FieldRoundTrip(f: VectorField)
    requires ValidField(f) && (f.hnsw.Some? ==> ValidConfig(f.hnsw.value))
    ensures FieldOf(Obj(FieldJson(f))) == Ok(f.Bare())
  {
    hide ConfigJson, ConfigOf, ValidConfig;
    if f.hnsw.Some? { ConfigRoundTrip(f.hnsw.value); }
    assert FieldJson(f).Keys == FIELD_KEYS;
  }

  type Schema = map<string, VectorField>

  function BareSchema(schema: Schema): Schema { map n | n in schema :: schema[n].Bare() }

  predicate ValidName(name: string) { name != "" && (0 as char) !in name }

  // ---------------------------------------------------------------- header

  const FORMAT := "akashadb.points"
  const HEADER_KEYS := {"format", "version", "config", "vectors", "count", "source_sequence"}

  datatype Header = Header(config: Config, schema: Schema, count: int, sourceSequence: int)

  function SchemaJson(schema: Schema): map<string, Json> { map n | n in schema :: Obj(FieldJson(schema[n])) }

  function HeaderJson(h: Header): Json {
    Obj(map["format" := Str(FORMAT), "version" := Int(1), "config" := Obj(ConfigJson(h.config)),
            "vectors" := Obj(SchemaJson(h.schema)), "count" := Int(h.count), "source_sequence" := Int(h.sourceSequence)])
  }

  predicate Between(j: Json, low: int, high: int) { j.Int? && low <= j.n <= high }

  predicate FieldsDecode(o: map<string, Json>) { forall n :: n in o ==> ValidName(n) && FieldOf(o[n]).Ok? }

  function HeaderOf(j: Json): Result<Header> {
    if !j.Obj? || j.members.Keys != HEADER_KEYS then Err
    else
      var o := j.members;
      if o["format"] != Str(FORMAT) || o["version"] != Int(1) then Err
      else if !Between(o["count"], 0, 0x7FFF_FFFF_FFFF_FFFF) || !Between(o["source_sequence"], 0, 0xFFFF_FFFF_FFFF_FFFF) then Err
      else if ConfigOf(o["config"]).Err? || !o["vectors"].Obj? || !FieldsDecode(o["vectors"].members) then Err
      else Ok(Header(ConfigOf(o["config"]).value, map n | n in o["vectors"].members :: FieldOf(o["vectors"].members[n]).value,
                     o["count"].n, o["source_sequence"].n))
  }

  ghost predicate ValidSchema(schema: Schema) {
    forall n :: n in schema ==> ValidName(n) && ValidField(schema[n]) && (schema[n].hnsw.Some? ==> ValidConfig(schema[n].hnsw.value))
  }

  ghost predicate ValidHeader(h: Header) {
    && ValidConfig(h.config) && ValidSchema(h.schema)
    && 0 <= h.count <= 0x7FFF_FFFF_FFFF_FFFF && 0 <= h.sourceSequence <= 0xFFFF_FFFF_FFFF_FFFF
  }

  /** A written header reads back as itself, without fingerprints. */
  lemma HeaderRoundTrip(h: Header)
    requires ValidHeader(h)
    ensures HeaderOf(HeaderJson(h)) == Ok(Header(h.config.Bare(), BareSchema(h.schema), h.count, h.sourceSequence))
  {
    hide ConfigJson, ConfigOf, ValidConfig, FieldJson, FieldOf, ValidField, ValidName;
    ConfigRoundTrip(h.config);
    var o, v := HeaderJson(h).members, SchemaJson(h.schema);
    assert o.Keys == HEADER_KEYS;
    assert o["vectors"] == Obj(v) && o["config"] == Obj(ConfigJson(h.config));
    forall n | n in h.schema ensures FieldOf(v[n]) == Ok(h.schema[n].Bare()) { FieldRoundTrip(h.schema[n]); }
    assert BareSchema(h.schema) == map n | n in v :: FieldOf(v[n]).value;
  }

  // ---------------------------------------------------------------- hexadecimal text

  function HexChar(d: int): char
    requires 0 <= d < 16
  {
    if d < 10 then ('0' as int + d) as char else ('a' as int + d - 10) as char
  }

  predicate IsHex(c: char) { '0' <= c <= '9' || 'a' <= c <= 'f' || 'A' <= c <= 'F' }

  function HexValue(c: char): (d: int)
    requires IsHex(c)
    ensures 0 <= d < 16
  {
    if c <= '9' then c as int - '0' as int else if c <= 'F' then c as int - 'A' as int + 10 else c as int - 'a' as int + 10
  }

  /** `bytes.hex` */
  function Hex(data: seq<byte>): (text: string)
    ensures |text| == 2 * |data|
    ensures forall i :: 0 <= i < |text| ==> IsHex(text[i])
  {
    if data == [] then [] else [HexChar(data[0] as int / 16), HexChar(data[0] as int % 16)] + Hex(data[1..])
  }

  /** `bytes.fromhex` on text of hexadecimal digits in either case. */
  function FromHex(text: string): (data: seq<byte>)
    requires |text| % 2 == 0 && forall i :: 0 <= i < |text| ==> IsHex(text[i])
    ensures 2 * |data| == |text|
  {
    if text == [] then [] else [(16 * HexValue(text[0]) + HexValue(text[1])) as byte] + FromHex(text[2..])
  }

  lemma {:induction false} HexRoundTrip(data: seq<byte>)
    ensures FromHex(Hex(data)) == data
  {
    if data != [] {
      HexRoundTrip(data[1..]);
      assert Hex(data)[2..] == Hex(data[1..]);
    }
  }

  /** Two lower-case digits for each byte, the high one first. */
  lemma {:induction false} HexDigits(data: seq<byte>, i: nat)
    requires i < |data|
    ensures Hex(data)[2 * i] == "0123456789abcdef"[data[i] as int / 16] && Hex(data)[2 * i + 1] == "0123456789abcdef"[data[i] as int % 16]
  {
    DigitText(data[i] as int / 16);
    DigitText(data[i] as int % 16);
    if i > 0 {
      HexDigits(data[1..], i - 1);
      assert Hex(data)[2..] == Hex(data[1..]);
    }
  }

  lemma DigitText(d: int)
    requires 0 <= d < 16
    ensures HexChar(d) == "0123456789abcdef"[d]
  {
  }

  /** Each byte read is sixteen times the value of its first digit plus that of its second, letters in
      either case. */
  lemma {:induction false} FromHexDigits(text: string, i: nat, high: int, low: int)
    requires |text| % 2 == 0 && (forall k :: 0 <= k < |text| ==> IsHex(text[k])) && 2 * i + 1 < |text|
    requires 0 <= high < 16 && (text[2 * i] == "0123456789abcdef"[high] || text[2 * i] == "0123456789ABCDEF"[high])
    requires 0 <= low < 16 && (text[2 * i + 1] == "0123456789abcdef"[low] || text[2 * i + 1] == "0123456789ABCDEF"[low])
    ensures FromHex(text)[i] as int == 16 * high + low
  {
    if i == 0 {
      DigitValue(text[0], high);
      DigitValue(text[1], low);
    } else {
      FromHexDigits(text[2..], i - 1, high, low);
    }
  }

  lemma DigitValue(c: char, d: int)
    requires 0 <= d < 16 && (c == "0123456789abcdef"[d] || c == "0123456789ABCDEF"[d])
    ensures IsHex(c) && HexValue(c) == d
  {
  }

  // ---------------------------------------------------------------- the format, name by name

  ghost predicate ConfigSays(j: Json, c: Config) {
    && j.Obj?
    && j.members.Keys == {"dimension", "ann_metric", "scalar_kind", "m", "m0", "ef_construction", "default_ef_search",
                          "max_ef_search", "max_level", "rebuild_inactive_percent", "delta_max_points", "level_seed"}
    && j.members["dimension"] == Int(c.dimension) && j.members["ann_metric"] == Str(c.annMetric)
    && j.members["scalar_kind"] == Str(c.scalarKind) && j.members["m"] == Int(c.m) && j.members["m0"] == Int(c.m0)
    && j.members["ef_construction"] == Int(c.efConstruction) && j.members["default_ef_search"] == Int(c.defaultEfSearch)
    && j.members["max_ef_search"] == Int(c.maxEfSearch) && j.members["max_level"] == Int(c.maxLevel)
    && j.members["rebuild_inactive_percent"] == Int(c.rebuildInactivePercent)
    && j.members["delta_max_points"] == Int(c.deltaMaxPoints) && j.members["level_seed"] == Int(c.levelSeed)
  }

  ghost predicate FieldSays(j: Json, f: VectorField) {
    && j.Obj? && j.members.Keys == {"dimension", "dtype", "kind", "metric", "hnsw"}
    && j.members["dimension"] == Int(f.dimension) && j.members["dtype"] == Str(f.dtype)
    && j.members["kind"] == Str(f.kind) && j.members["metric"] == Str(f.metric)
    && (f.hnsw.None? ==> j.members["hnsw"] == Null) && (f.hnsw.Some? ==> ConfigSays(j.members["hnsw"], f.hnsw.value))
  }

  /** The header holds each part under its own name, and the format's name and version. */
  ghost predicate HeaderSays(j: Json, h: Header) {
    && j.Obj? && j.members.Keys == {"format", "version", "config", "vectors", "count", "source_sequence"}
    && j.members["format"] == Str("akashadb.points") && j.members["version"] == Int(1)
    && ConfigSays(j.members["config"], h.config)
    && j.members["vectors"].Obj? && j.members["vectors"].members.Keys == h.schema.Keys
    && (forall n :: n in h.schema ==> FieldSays(j.members["vectors"].members[n], h.schema[n]))
    && j.members["count"] == Int(h.count) && j.members["source_sequence"] == Int(h.sourceSequence)
  }

  lemma ConfigIsSaid(c: Config)
    ensures ConfigSays(Obj(ConfigJson(c)), c)
  {
  }

  lemma FieldIsSaid(f: VectorField)
    ensures FieldSays(Obj(FieldJson(f)), f)
  {
    hide ConfigSays, ConfigJson;
    if f.hnsw.Some? { ConfigIsSaid(f.hnsw.value); }
  }

  /** What is written says the header. */
  lemma HeaderIsSaid(h: Header)
    ensures HeaderSays(HeaderJson(h), h)
  {
    hide ConfigSays, ConfigJson, FieldSays, FieldJson;
    ConfigIsSaid(h.config);
    forall n | n in h.schema ensures FieldSays(SchemaJson(h.schema)[n], h.schema[n]) { FieldIsSaid(h.schema[n]); }
  }

  lemma ConfigReads(j: Json)
    requires ConfigOf(j).Ok?
    ensures ConfigSays(j, ConfigOf(j).value) && ValidConfig(ConfigOf(j).value)
  {
    assert forall f :: f in CONFIG_INTS ==> j.members[f].Int?;
  }

  lemma FieldReads(j: Json)
    requires FieldOf(j).Ok?
    ensures FieldSays(j, FieldOf(j).value) && ValidField(FieldOf(j).value)
  {
    hide ConfigOf, ConfigSays, ValidConfig;
    if !j.members["hnsw"].Null? { ConfigReads(j.members["hnsw"]); }
  }

  /** What is accepted says the header that is returned, which is valid and within its ranges. */
  lemma HeaderReads(j: Json)
    requires HeaderOf(j).Ok?
    ensures HeaderSays(j, HeaderOf(j).value) && ValidConfig(HeaderOf(j).value.config)
    ensures 0 <= HeaderOf(j).value.count < 0x8000_0000_0000_0000 && 0 <= HeaderOf(j).value.sourceSequence < 0x1_0000_0000_0000_0000
    ensures forall n :: n in HeaderOf(j).value.schema ==>
      n != "" && (0 as char) !in n && ValidField(HeaderOf(j).value.schema[n])
  {
    hide ConfigOf, ConfigSays, ValidConfig, FieldOf, FieldSays, ValidField;
    ConfigReads(j.members["config"]);
    var o := j.members["vectors"].members;
    forall n | n in o ensures FieldSays(o[n], FieldOf(o[n]).value) && ValidField(FieldOf(o[n]).value) { FieldReads(o[n]); }
  }

  /** The valid combinations of kind, element type, metric and dimension. */
  lemma FieldKinds(f: VectorField)
    requires f.hnsw.None?
    ensures ValidField(f) <==>
      || (f.kind in {"dense", "multivector"} && f.dtype in {"f32", "bf16", "f16", "i8", "u8"} && f.metric in {"dot", "l2", "cosine"}
          && 1 <= f.dimension < 0x1_0000_0000)
      || (f.kind == "sparse" && f.dtype == "f32" && f.metric == "dot" && f.dimension == 0)
      || (f.kind == "binary" && f.dtype == "binary" && f.metric in {"hamming", "jaccard"} && 1 <= f.dimension < 0x1_0000_0000)
  {
  }
}
