/** The row half of the logical point format: point contents, exported rows, and the mutations that
    an import makes of them. */
module PointRows {
  import opened Basics
  import opened Protocol
  import opened PointSchema

  // ---------------------------------------------------------------- points

  /** A Python value: JSON data or raw bytes. */
  datatype Value = Data(json: Json) | Bytes(bytes: seq<byte>)

  /** What a point holds: absent and empty vectors are different. */
  datatype Content = Content(vector: Option<Value>, sparse: Option<Value>, vectors: map<string, Value>, fields: seq<Payload>)
  datatype Payload = Payload(name: Json, kind: Json, value: Json)
  datatype Row = Row(id: int, sequence: int, documentSequence: int, content: Content)

  const NoContent := Content(None, None, map[], [])

  // ---------------------------------------------------------------- export

  function BinaryJson(data: seq<byte>): Json {
    Obj(map["encoding" := Str("hex"), "data" := Str(Hex(data))])
  }

  /** One value of a row's rewritten `vectors`: a binary field must hold bytes. */
  function Encoded(schema: Schema, name: string, v: Value): Result<Value> {
    if name !in schema then Err
    else if schema[name].kind != "binary" then Ok(v)
    else if v.Data? then Err
    else Ok(Data(BinaryJson(v.bytes)))
  }

  predicate Encodes(schema: Schema, row: Row) {
    forall n :: n in row.content.vectors ==> Encoded(schema, n, row.content.vectors[n]).Ok?
  }

  function EncodedRow(schema: Schema, row: Row): Row
    requires Encodes(schema, row)
  {
    row.(content := row.content.(vectors := map n | n in row.content.vectors :: Encoded(schema, n, row.content.vectors[n]).value))
  }

  /** `encode_export`: rewrites the captured rows in place and returns the header. */
  method EncodeExport(config: Config, schema: Schema, sourceSequence: int, rows: array<Row>) returns (r: Result<Json>)
    modifies rows
    ensures r.Ok? <==> (
      && ValidConfig(config) && (forall n :: n in schema ==> ValidField(schema[n]))
      && (forall i :: 0 <= i < rows.Length ==> Encodes(schema, old(rows[i]))))
    ensures r.Ok? ==> r.value == HeaderJson(Header(config, schema, rows.Length, sourceSequence))
    ensures r.Ok? ==> forall i :: 0 <= i < rows.Length ==> rows[i] == EncodedRow(schema, old(rows[i]))
  {
    hide ValidConfig, ValidField, Encoded, HeaderJson;
    if exists n :: n in schema && !ValidField(schema[n]) { return Err; }
    for i := 0 to rows.Length
      invariant forall k :: 0 <= k < i ==> Encodes(schema, old(rows[k])) && rows[k] == EncodedRow(schema, old(rows[k]))
      invariant forall k :: i <= k < rows.Length ==> rows[k] == old(rows[k])
    {
      if !Encodes(schema, rows[i]) { return Err; }
      rows[i] := EncodedRow(schema, rows[i]);
    }
    if !ValidConfig(config) { return Err; }
    return Ok(HeaderJson(Header(config, schema, rows.Length, sourceSequence)));
  }

  const POINT_KEYS := {"id", "sequence", "document_sequence", "vector", "sparse", "vectors", "fields"}

  function OrNull(v: Option<Value>): Json { if v == None || v.value.Bytes? then Null else v.value.json }

  function PayloadJson(p: Payload): Json { Obj(map["name" := p.name, "type" := p.kind, "value" := p.value]) }

  function PayloadsJson(ps: seq<Payload>): (items: seq<Json>)
    ensures |items| == |ps| && forall i :: 0 <= i < |ps| ==> items[i] == PayloadJson(ps[i])
  {
    seq(|ps|, i requires 0 <= i < |ps| => PayloadJson(ps[i]))
  }

  /** A row as `json.dumps` writes it; bytes cannot be written. */
  function RowJson(row: Row): Result<Json> {
    var c := row.content;
    if c.vector.Some? && c.vector.value.Bytes? then Err
    else if c.sparse.Some? && c.sparse.value.Bytes? then Err
    else if exists n :: n in c.vectors && c.vectors[n].Bytes? then Err
    else Ok(Obj(map["id" := Int(row.id), "sequence" := Int(row.sequence), "document_sequence" := Int(row.documentSequence),
                    "vector" := OrNull(c.vector), "sparse" := OrNull(c.sparse),
                    "vectors" := Obj(map n | n in c.vectors && c.vectors[n].Data? :: c.vectors[n].json),
                    "fields" := Arr(PayloadsJson(c.fields))]))
  }

  // ---------------------------------------------------------------- import: rows to mutations

  /** A default vector in a mutation: left alone, removed, or set. */
  datatype Setting = Unset | Remove | Put(value: Value)

  /** `PointMutation.upsert` */
  datatype PointMutation = PointUpsert(id: int, vectors: map<string, Option<Value>>, vector: Setting, sparse: Setting, fields: Option<seq<Payload>>)

  predicate SparseItems(items: seq<Json>) {
    forall i :: 0 <= i < |items| ==> items[i].Obj? && items[i].members.Keys == {"term_id", "weight"}
  }

  /** `_sparse` accepts the value. */
  predicate IsSparse(j: Json) { j.Null? || (j.Arr? && SparseItems(j.items)) }

  /** `_vector` */
  function VectorOf(j: Json, spec: VectorField): Result<Value> {
    if j.Null? then Err
    else if spec.kind == "binary" then
      if !j.Obj? || j.members.Keys != {"encoding", "data"} then Err
      else if j.members["encoding"] != Str("hex") || !j.members["data"].Str? then Err
      else
        var data := j.members["data"].s;
        if |data| != 2 * ((spec.dimension + 7) / 8) then Err
        else if exists i :: 0 <= i < |data| && !IsHex(data[i]) then Err
        else Ok(Bytes(FromHex(data)))
    else if spec.kind == "sparse" then
      if IsSparse(j) then Ok(Data(j)) else Err
    else if j.Arr? then Ok(Data(j)) else Err
  }

  function SettingOf(j: Json): Setting { if j.Null? then Remove else Put(Data(j)) }

  predicate IsPayload(j: Json) { j.Obj? && j.members.Keys == {"name", "type", "value"} }

  function PayloadOf(j: Json): Payload
    requires IsPayload(j)
  {
    Payload(j.members["name"], j.members["type"], j.members["value"])
  }

  function PayloadsOf(items: seq<Json>): (ps: seq<Payload>)
    requires forall i :: 0 <= i < |items| ==> IsPayload(items[i])
    ensures |ps| == |items| && forall i :: 0 <= i < |ps| ==> ps[i] == PayloadOf(items[i])
  {
    seq(|items|, i requires 0 <= i < |items| => PayloadOf(items[i]))
  }

  predicate VectorsDecode(o: map<string, Json>, schema: Schema) {
    && (forall n :: n in o ==> n in schema)
    && (forall n :: n in o && n in schema ==> VectorOf(o[n], schema[n]).Ok?)
  }

  /** One pass of the loop of `decode_points`. Every field of the schema is mentioned: an absent
      one is removed. */
  function RowOf(row: Json, sourceSequence: int, schema: Schema): Result<PointMutation> {
    if !row.Obj? || row.members.Keys != POINT_KEYS then Err
    else
      var o := row.members;
      if !Between(o["id"], -0x8000_0000_0000_0000, 0x7FFF_FFFF_FFFF_FFFF) then Err
      else if !Between(o["sequence"], 1, sourceSequence) || !Between(o["document_sequence"], 0, o["sequence"].n) then Err
      else if !o["vectors"].Obj? || !VectorsDecode(o["vectors"].members, schema) then Err
      else if (!o["vector"].Null? && !o["vector"].Arr?) || !o["fields"].Arr? || !IsSparse(o["sparse"]) then Err
      else if exists i :: 0 <= i < |o["fields"].items| && !IsPayload(o["fields"].items[i]) then Err
      else
        var vectors := o["vectors"].members;
        Ok(PointUpsert(o["id"].n,
                  map n | n in schema :: if n in vectors then Some(VectorOf(vectors[n], schema[n]).value) else None,
                  SettingOf(o["vector"]), SettingOf(o["sparse"]), Some(PayloadsOf(o["fields"].items))))
  }

  ghost predicate RowsDecode(rows: seq<Json>, sourceSequence: int, schema: Schema) {
    && (forall i :: 0 <= i < |rows| ==> RowOf(rows[i], sourceSequence, schema).Ok?)
    && (forall i, j :: 0 <= i < j < |rows| ==>
          RowOf(rows[i], sourceSequence, schema).value.id != RowOf(rows[j], sourceSequence, schema).value.id)
  }

  ghost function Decoded(rows: seq<Json>, sourceSequence: int, schema: Schema): (ms: seq<PointMutation>)
    requires RowsDecode(rows, sourceSequence, schema)
    ensures |ms| == |rows| && forall i :: 0 <= i < |ms| ==> ms[i] == RowOf(rows[i], sourceSequence, schema).value
  {
    seq(|rows|, i requires 0 <= i < |rows| => RowOf(rows[i], sourceSequence, schema).value)
  }

  /** `decode_points`: grows a list and a set of seen IDs. */
  method DecodePoints(count: int, sourceSequence: int, rows: seq<Json>, schema: Schema) returns (r: Result<seq<PointMutation>>)
    ensures r.Ok? <==> |rows| == count && RowsDecode(rows, sourceSequence, schema)
    ensures r.Ok? ==> r.value == Decoded(rows, sourceSequence, schema)
  {
    hide RowOf;
    if |rows| != count { return Err; }
    var result, seen := [], {};
    for i := 0 to |rows|
      invariant RowsDecode(rows[..i], sourceSequence, schema)
      invariant result == Decoded(rows[..i], sourceSequence, schema)
      invariant forall id :: id in seen <==> exists k :: 0 <= k < i && result[k].id == id
    {
      var m := RowOf(rows[i], sourceSequence, schema);
      if m.Err? || m.value.id in seen { return Err; }
      ghost var before := result;
      result, seen := result + [m.value], seen + {m.value.id};
      assert rows[..i + 1] == rows[..i] + [rows[i]];
      forall id ensures id in seen <==> exists k :: 0 <= k < i + 1 && result[k].id == id {
        if id == m.value.id { assert result[i].id == id; }
        if id in seen && id != m.value.id {
          var k :| 0 <= k < i && before[k].id == id;
          assert result[k].id == id;
        }
      }
    }
    assert rows[..|rows|] == rows;
    return Ok(result);
  }

  // ---------------------------------------------------------------- the format, name by name

  ghost predicate PayloadsSay(j: Json, ps: seq<Payload>) {
    && j.Arr? && |j.items| == |ps|
    && forall i :: 0 <= i < |ps| ==>
         && j.items[i].Obj? && j.items[i].members.Keys == {"name", "type", "value"}
         && j.items[i].members["name"] == ps[i].name && j.items[i].members["type"] == ps[i].kind && j.items[i].members["value"] == ps[i].value
  }

  /** A line holds each part of the row under its own name; absent default values are null. */
  ghost predicate RowSays(j: Json, row: Row) {
    var c := row.content;
    && j.Obj? && j.members.Keys == {"id", "sequence", "document_sequence", "vector", "sparse", "vectors", "fields"}
    && j.members["id"] == Int(row.id) && j.members["sequence"] == Int(row.sequence)
    && j.members["document_sequence"] == Int(row.documentSequence)
    && (c.vector.None? ==> j.members["vector"] == Null) && (c.vector.Some? ==> c.vector.value == Data(j.members["vector"]))
    && (c.sparse.None? ==> j.members["sparse"] == Null) && (c.sparse.Some? ==> c.sparse.value == Data(j.members["sparse"]))
    && j.members["vectors"].Obj? && j.members["vectors"].members.Keys == c.vectors.Keys
    && (forall n :: n in c.vectors ==> c.vectors[n] == Data(j.members["vectors"].members[n]))
    && PayloadsSay(j.members["fields"], c.fields)
  }

  lemma RowIsSaid(row: Row)
    requires RowJson(row).Ok?
    ensures RowSays(RowJson(row).value, row)
  {
    assert PayloadsSay(Arr(PayloadsJson(row.content.fields)), row.content.fields);
    hide PayloadsSay, PayloadsJson;
  }

  /** Encoding a row touches its binary vectors alone: their bytes become hexadecimal text. */
  lemma EncodingSays(schema: Schema, row: Row)
    requires Encodes(schema, row)
    ensures var c, d := row.content, EncodedRow(schema, row).content;
      && EncodedRow(schema, row) == row.(content := c.(vectors := d.vectors)) && d.vectors.Keys == c.vectors.Keys
      && forall n :: n in c.vectors ==>
           && n in schema
           && (schema[n].kind != "binary" ==> d.vectors[n] == c.vectors[n])
           && (schema[n].kind == "binary" ==>
                 c.vectors[n].Bytes? && d.vectors[n] == Data(Obj(map["encoding" := Str("hex"), "data" := Str(Hex(c.vectors[n].bytes))])))
  {
  }

  /** What an accepted row means: which point, within which ranges, and what is set or removed. */
  lemma RowReads(j: Json, sourceSequence: int, schema: Schema)
    requires RowOf(j, sourceSequence, schema).Ok?
    ensures j.Obj? && j.members.Keys == {"id", "sequence", "document_sequence", "vector", "sparse", "vectors", "fields"}
    ensures var o, m := j.members, RowOf(j, sourceSequence, schema).value;
      && o["id"] == Int(m.id) && -0x8000_0000_0000_0000 <= m.id < 0x8000_0000_0000_0000
      && o["sequence"].Int? && 1 <= o["sequence"].n <= sourceSequence
      && o["document_sequence"].Int? && 0 <= o["document_sequence"].n <= o["sequence"].n
      && (o["vector"] == Null ==> m.vector == Remove) && (o["vector"] != Null ==> o["vector"].Arr? && m.vector == Put(Data(o["vector"])))
      && (o["sparse"] == Null ==> m.sparse == Remove) && (o["sparse"] != Null ==> o["sparse"].Arr? && m.sparse == Put(Data(o["sparse"])))
      && m.fields.Some? && PayloadsSay(o["fields"], m.fields.value)
      && o["vectors"].Obj? && o["vectors"].members.Keys <= schema.Keys && m.vectors.Keys == schema.Keys
      && (forall n :: n in schema && n !in o["vectors"].members ==> m.vectors[n] == None)
      && (forall n :: n in schema && n in o["vectors"].members ==> VectorReads(o["vectors"].members[n], schema[n], m.vectors[n]))
  {
    var o := j.members;
    assert forall i :: 0 <= i < |o["fields"].items| ==> IsPayload(o["fields"].items[i]);
    hide SparseItems;
  }

  /** A named value: hexadecimal text of the field's width for a binary field, a list as it stands for
      any other. */
  ghost predicate VectorReads(j: Json, spec: VectorField, v: Option<Value>) {
    if spec.kind == "binary" then
      && j.Obj? && j.members.Keys == {"encoding", "data"} && j.members["encoding"] == Str("hex") && j.members["data"].Str?
      && var text := j.members["data"].s;
         && (forall k :: 0 <= k < |text| ==> IsHex(text[k])) && |text| == 2 * ((spec.dimension + 7) / 8)
         && v == Some(Bytes(FromHex(text)))
    else j.Arr? && v == Some(Data(j))
  }
}
