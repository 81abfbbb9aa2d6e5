/** Logical export and import of complete point states: importing an export over any target state
    replaces exactly the exported points. */
module LogicalPoints {
  import opened Basics
  import opened Protocol
  import opened PointSchema
  import opened PointRows
  import opened PointBatches

  // ---------------------------------------------------------------- import

  predicate IsPointHeader(o: map<string, Json>) { "format" in o || "version" in o }

  /** Both sides compare without fingerprints. */
  predicate Matches(h: Header, config: Config, schema: Schema) {
    h.config.Bare() == config.Bare() && BareSchema(h.schema) == BareSchema(schema)
  }

  /** The file is acceptable for the collection and holds the mutations `ms`. */
  ghost predicate Reads(config: Config, schema: Schema, lines: seq<Json>, ms: seq<PointMutation>) {
    && lines != [] && HeaderOf(lines[0]).Ok?
    && var h := HeaderOf(lines[0]).value;
    && Matches(h, config, schema)
    && |lines[1..]| == h.count
    && RowsDecode(lines[1..], h.sourceSequence, h.schema)
    && ms == Decoded(lines[1..], h.sourceSequence, h.schema)
  }

  /** Importing the file turns `points` into `after`. */
  ghost predicate Imports(kernel: PointKernel, config: Config, schema: Schema, points: map<int, Content>, lines: seq<Json>, after: map<int, Content>) {
    exists ms, cs :: Reads(config, schema, lines, ms) && StoredAll(kernel, schema, ms, cs) && Replaced(points, ms, cs, after)
  }

  lemma RowIsComplete(row: Json, sourceSequence: int, schema: Schema)
    requires RowOf(row, sourceSequence, schema).Ok?
    ensures Complete(schema, RowOf(row, sourceSequence, schema).value)
  {
    hide VectorsDecode, VectorOf, Between, IsSparse, IsPayload;
  }

  /** Every accepted file mentions every field of every point it holds. */
  lemma ReadsComplete(config: Config, schema: Schema, lines: seq<Json>, ms: seq<PointMutation>)
    requires Reads(config, schema, lines, ms)
    ensures CompleteBatch(schema, ms)
  {
    hide RowOf, HeaderOf;
    var h := HeaderOf(lines[0]).value;
    assert BareSchema(h.schema).Keys == h.schema.Keys && BareSchema(schema).Keys == schema.Keys;
    forall i | 0 <= i < |ms| ensures Complete(schema, ms[i]) {
      RowIsComplete(lines[1..][i], h.sourceSequence, h.schema);
    }
  }

  /** An import has one outcome. */
  lemma ImportsOnce(kernel: PointKernel, config: Config, schema: Schema, points: map<int, Content>, lines: seq<Json>, a: map<int, Content>, b: map<int, Content>)
    requires Imports(kernel, config, schema, points, lines, a) && Imports(kernel, config, schema, points, lines, b)
    ensures a == b
  {
    hide HeaderOf, RowsDecode, Matches, Complete, IsStored;
    var ms, cs :| Reads(config, schema, lines, ms) && StoredAll(kernel, schema, ms, cs) && Replaced(points, ms, cs, a);
    var ns, ds :| Reads(config, schema, lines, ns) && StoredAll(kernel, schema, ns, ds) && Replaced(points, ns, ds, b);
    assert ms == ns;
    ReadsComplete(config, schema, lines, ms);
    forall i | 0 <= i < |ms| ensures cs[i] == ds[i] { StoredOnce(kernel, schema, ms[i], cs[i], ds[i]); }
    assert cs == ds;
    ReplacedOnce(points, ms, cs, a, b);
  }

  lemma ReplacedOnce(points: map<int, Content>, ms: seq<PointMutation>, cs: seq<Content>, a: map<int, Content>, b: map<int, Content>)
    requires |ms| == |cs| && Replaced(points, ms, cs, a) && Replaced(points, ms, cs, b)
    ensures a == b
  {
    forall id ensures (id in a <==> id in b) && (id in a && id in b ==> a[id] == b[id]) {
      if i :| 0 <= i < |ms| && ms[i].id == id {
        assert ms[i].id in a;
      }
    }
  }

  datatype Outcome = Imported(count: nat) | Rejected | LegacyDocuments

  class Collection {
    const kernel: PointKernel
    const config: Config
    const schema: Schema
    const maxBatchRows: nat
    const fieldAware: bool
    var points: map<int, Content>

    ghost predicate Valid()
      reads this
    {
      InCatalog(schema, points)
    }

    constructor (kernel: PointKernel, config: Config, schema: Schema, maxBatchRows: nat, fieldAware: bool)
      ensures Valid() && points == map[]
      ensures this.kernel == kernel && this.config == config && this.schema == schema
      ensures this.maxBatchRows == maxBatchRows && this.fieldAware == fieldAware
    {
      this.kernel, this.config, this.schema := kernel, config, schema;
      this.maxBatchRows, this.fieldAware := maxBatchRows, fieldAware;
      points := map[];
    }

    /** `apply_point_batch`, with the kernel's all-or-nothing batch. */
    method ApplyPointBatch(ms: seq<PointMutation>) returns (ok: bool, ghost lists: seq<seq<Update>>)
      modifies this
      ensures ListsAll(lists, ms)
      ensures ok <==> |ms| <= maxBatchRows && ApplyBatch(kernel, schema, old(points), ms, lists).Ok?
      ensures points == if ok then ApplyBatch(kernel, schema, old(points), ms, lists).value else old(points)
    {
      hide ApplyUpsert, Lists;
      var batch: seq<seq<Update>> := [];
      for i := 0 to |ms|
        invariant ListsAll(batch, ms[..i]) && points == old(points)
      {
        var updates := ToKernel(ms[i]);
        batch := batch + [updates];
      }
      assert ms[..|ms|] == ms;
      lists := batch;
      if |ms| > maxBatchRows { return false, lists; }
      var working := points;
      for i := 0 to |ms|
        invariant points == old(points)
        invariant ApplyBatch(kernel, schema, points, ms[..i], batch[..i]) == Ok(working)
      {
        assert ms[..i + 1][..i] == ms[..i] && batch[..i + 1][..i] == batch[..i];
        var next := ApplyUpsert(kernel, schema, working, ms[i].id, batch[i], ms[i].fields);
        if next.Err? {
          BatchStopsAt(kernel, schema, points, ms, batch, i + 1);
          return false, lists;
        }
        working := next.value;
      }
      assert batch[..|ms|] == batch;
      points := working;
      return true, lists;
    }

    /** `import_ndjson`: the file is read, bounded and decoded as a whole before the one batch. */
    method ImportNdjson(lines: seq<Json>) returns (r: Outcome)
      requires Valid()
      modifies this
      ensures Valid()
      ensures r.Imported? ==> fieldAware && |lines| - 1 <= maxBatchRows && r.count == |lines| - 1
      ensures r.Imported? ==> Imports(kernel, config, schema, old(points), lines, points)
      ensures !r.Imported? ==> points == old(points)
      ensures r.Rejected? && fieldAware && |lines| - 1 <= maxBatchRows ==>
        forall after :: !Imports(kernel, config, schema, points, lines, after)
      ensures r.LegacyDocuments? ==> lines != [] && lines[0].Obj? && !IsPointHeader(lines[0].members)
    {
      hide HeaderOf, RowsDecode, Matches, ApplyBatch, StoredAll, RowOf;
      if lines == [] { return Rejected; }
      for i := 0 to |lines|
        invariant forall k :: 0 <= k < i ==> lines[k].Obj?
        invariant i > 0 && IsPointHeader(lines[0].members) ==> i - 1 <= maxBatchRows
      {
        if !lines[i].Obj? {
          forall ms | Reads(config, schema, lines, ms) ensures false { ReadsObjects(config, schema, lines, ms, i); }
          return Rejected;
        }
        var headerRows := if IsPointHeader(lines[0].members) then 1 else 0;
        if i + 1 - headerRows > maxBatchRows {
          forall ms ensures headerRows == 0 ==> !Reads(config, schema, lines, ms) { HeadersHaveFormat(lines[0]); }
          return Rejected;
        }
      }
      if !IsPointHeader(lines[0].members) { return LegacyDocuments; }
      var h := HeaderOf(lines[0]);
      if h.Err? || !fieldAware || !Matches(h.value, config, schema) { return Rejected; }
      var ms := DecodePoints(h.value.count, h.value.sourceSequence, lines[1..], h.value.schema);
      if ms.Err? { return Rejected; }
      assert Reads(config, schema, lines, ms.value);
      ReadsComplete(config, schema, lines, ms.value);
      if ms.value != [] {
        var ok; ghost var lists;
        ok, lists := ApplyPointBatch(ms.value);
        ghost var cs := BatchReplaces(kernel, schema, old(points), ms.value, lists);
        if !ok { return Rejected; }
      } else {
        EmptyBatch(kernel, schema, points);
      }
      return Imported(|ms.value|);
    }
  }

  lemma HeadersHaveFormat(j: Json)
    ensures HeaderOf(j).Ok? ==> IsPointHeader(j.members)
  {
  }

  lemma ReadsObjects(config: Config, schema: Schema, lines: seq<Json>, ms: seq<PointMutation>, i: nat)
    requires i < |lines| && Reads(config, schema, lines, ms)
    ensures lines[i].Obj?
  {
    if i > 0 {
      assert RowOf(lines[1..][i - 1], HeaderOf(lines[0]).value.sourceSequence, HeaderOf(lines[0]).value.schema).Ok?;
    }
  }

  // ---------------------------------------------------------------- importing an export

  /** A value as the kernel exports it for a field of this kind. */
  predicate Exportable(spec: VectorField, v: Value) {
    if spec.kind == "binary" then v.Bytes? && |v.bytes| == (spec.dimension + 7) / 8
    else v.Data? && v.json.Arr? && (spec.kind == "sparse" ==> SparseItems(v.json.items))
  }

  /** A captured row as far as its form goes: bounded numbers, known fields, exported values. */
  ghost predicate ShapedRow(schema: Schema, sourceSequence: int, row: Row) {
    var c := row.content;
    && -0x8000_0000_0000_0000 <= row.id <= 0x7FFF_FFFF_FFFF_FFFF
    && 1 <= row.sequence <= sourceSequence && 0 <= row.documentSequence <= row.sequence
    && c.vectors.Keys <= schema.Keys
    && (c.vector.Some? ==> c.vector.value.Data? && c.vector.value.json.Arr?)
    && (c.sparse.Some? ==> c.sparse.value.Data? && c.sparse.value.json.Arr? && SparseItems(c.sparse.value.json.items))
    && (forall n :: n in c.vectors ==> Exportable(schema[n], c.vectors[n]))
  }

  /** In addition the kernel stores the exported values as they are. */
  ghost predicate GoodRow(kernel: PointKernel, schema: Schema, sourceSequence: int, row: Row) {
    var c := row.content;
    && ShapedRow(schema, sourceSequence, row)
    && (forall t :: At(c, t).Some? ==> kernel.stored(t, SpecAt(schema, t), At(c, t).value) == At(c, t))
    && kernel.storedFields(c.fields) == Some(c.fields)
  }

  /** A schema with fingerprints, and what an import reads back for it, decode rows alike. */
  predicate SameKinds(a: Schema, b: Schema) {
    a.Keys == b.Keys && forall n :: n in a ==> n in b && a[n].kind == b[n].kind && a[n].dimension == b[n].dimension
  }

  lemma ValueRoundTrip(schema: Schema, read: Schema, n: string, v: Value)
    requires n in schema && SameKinds(schema, read) && Exportable(schema[n], v)
    ensures Encoded(schema, n, v).Ok? && Encoded(schema, n, v).value.Data?
    ensures VectorOf(Encoded(schema, n, v).value.json, read[n]) == Ok(v)
  {
    if schema[n].kind == "binary" {
      var j := BinaryJson(v.bytes);
      assert j.members.Keys == {"encoding", "data"} && j.members["data"] == Str(Hex(v.bytes));
      HexRoundTrip(v.bytes);
    }
  }

  lemma PayloadsRoundTrip(ps: seq<Payload>)
    ensures forall i :: 0 <= i < |ps| ==> IsPayload(PayloadJson(ps[i]))
    ensures PayloadsOf(PayloadsJson(ps)) == ps
  {
  }

  /** The mutation that an exported row turns into. */
  function Restores(schema: Schema, row: Row): PointMutation {
    var c := row.content;
    PointUpsert(row.id, map n | n in schema :: At(c, Named(n)),
                if c.vector.None? then Remove else Put(c.vector.value),
                if c.sparse.None? then Remove else Put(c.sparse.value), Some(c.fields))
  }

  /** The `vectors` object of an exported row. */
  function VectorsJson(schema: Schema, row: Row): map<string, Json>
    requires Encodes(schema, row)
  {
    var vs := EncodedRow(schema, row).content.vectors;
    map n | n in vs && vs[n].Data? :: vs[n].json
  }

  lemma VectorsRoundTrip(schema: Schema, read: Schema, row: Row)
    requires row.content.vectors.Keys <= schema.Keys && SameKinds(schema, read)
    requires forall n :: n in row.content.vectors ==> Exportable(schema[n], row.content.vectors[n])
    ensures Encodes(schema, row) && (forall n :: n in row.content.vectors ==> EncodedRow(schema, row).content.vectors[n].Data?)
    ensures VectorsJson(schema, row).Keys == row.content.vectors.Keys && VectorsDecode(VectorsJson(schema, row), read)
    ensures forall n :: n in row.content.vectors ==> VectorOf(VectorsJson(schema, row)[n], read[n]) == Ok(row.content.vectors[n])
  {
    hide Encoded, VectorOf, Exportable;
    var c := row.content;
    forall n | n in c.vectors
      ensures Encoded(schema, n, c.vectors[n]).Ok? && Encoded(schema, n, c.vectors[n]).value.Data?
      ensures VectorOf(Encoded(schema, n, c.vectors[n]).value.json, read[n]) == Ok(c.vectors[n])
    {
      ValueRoundTrip(schema, read, n, c.vectors[n]);
    }
  }

  lemma RowRoundTrip(schema: Schema, read: Schema, sourceSequence: int, row: Row)
    requires ShapedRow(schema, sourceSequence, row) && SameKinds(schema, read)
    ensures Encodes(schema, row) && RowJson(EncodedRow(schema, row)).Ok?
    ensures RowOf(RowJson(EncodedRow(schema, row)).value, sourceSequence, read) == Ok(Restores(schema, row))
  {
    VectorsRoundTrip(schema, read, row);
    RowIsWritten(schema, row);
    RowFields(schema, row);
    var o := RowJson(EncodedRow(schema, row)).value.members;
    PayloadsRoundTrip(row.content.fields);
    hide Encoded, VectorOf, Exportable, IsPayload, VectorsDecode, RowJson, Encodes, VectorsJson;
    RowAccepted(o, sourceSequence, read, VectorsJson(schema, row), row.content.fields);
    hide RowOf, SparseItems, IsSparse;
    RestoredVectors(schema, read, row, VectorsJson(schema, row));
  }

  lemma RowIsWritten(schema: Schema, row: Row)
    requires Encodes(schema, row) && (forall n :: n in row.content.vectors ==> EncodedRow(schema, row).content.vectors[n].Data?)
    requires row.content.vector.Some? ==> row.content.vector.value.Data?
    requires row.content.sparse.Some? ==> row.content.sparse.value.Data?
    ensures RowJson(EncodedRow(schema, row)).Ok?
  {
    hide Encoded, PayloadsJson;
  }

  lemma RestoredVectors(schema: Schema, read: Schema, row: Row, vectors: map<string, Json>)
    requires schema.Keys == read.Keys && vectors.Keys == row.content.vectors.Keys
    requires forall n :: n in row.content.vectors && n in read ==> VectorOf(vectors[n], read[n]) == Ok(row.content.vectors[n])
    ensures (map n | n in read && (n in vectors ==> VectorOf(vectors[n], read[n]).Ok?) ::
              if n in vectors then Some(VectorOf(vectors[n], read[n]).value) else None) == Restores(schema, row).vectors
  {
    hide VectorOf;
  }

  /** What `decode_points` asks of a row, field by field. */
  lemma RowAccepted(o: map<string, Json>, sourceSequence: int, read: Schema, vectors: map<string, Json>, fields: seq<Payload>)
    requires o.Keys == POINT_KEYS && Between(o["id"], -0x8000_0000_0000_0000, 0x7FFF_FFFF_FFFF_FFFF)
    requires Between(o["sequence"], 1, sourceSequence) && Between(o["document_sequence"], 0, o["sequence"].n)
    requires o["vectors"] == Obj(vectors) && VectorsDecode(vectors, read) && (o["vector"].Null? || o["vector"].Arr?)
    requires IsSparse(o["sparse"]) && o["fields"] == Arr(PayloadsJson(fields))
    requires forall i :: 0 <= i < |fields| ==> IsPayload(PayloadJson(fields[i]))
    ensures var m := RowOf(Obj(o), sourceSequence, read);
      && m.Ok? && m.value.id == o["id"].n && m.value.vector == SettingOf(o["vector"]) && m.value.sparse == SettingOf(o["sparse"])
      && m.value.fields == Some(PayloadsOf(PayloadsJson(fields)))
      && m.value.vectors == map n | n in read :: if n in vectors then Some(VectorOf(vectors[n], read[n]).value) else None
  {
    hide Between, IsSparse, IsPayload, VectorOf;
  }

  lemma RowFields(schema: Schema, row: Row)
    requires Encodes(schema, row) && RowJson(EncodedRow(schema, row)).Ok?
    ensures var c, j := row.content, RowJson(EncodedRow(schema, row)).value;
      && j.Obj? && j.members.Keys == POINT_KEYS
      && Between(j.members["id"], row.id, row.id) && Between(j.members["sequence"], row.sequence, row.sequence)
      && Between(j.members["document_sequence"], row.documentSequence, row.documentSequence)
      && j.members["vector"] == OrNull(c.vector) && j.members["sparse"] == OrNull(c.sparse)
      && j.members["vectors"] == Obj(VectorsJson(schema, row)) && j.members["fields"] == Arr(PayloadsJson(c.fields))
  {
    hide Encoded, PayloadsJson;
  }

  lemma GoodIsShaped(kernel: PointKernel, schema: Schema, sourceSequence: int, row: Row)
    requires GoodRow(kernel, schema, sourceSequence, row)
    ensures ShapedRow(schema, sourceSequence, row)
  {
  }

  /** A capture of one collection: a valid header and good rows with distinct IDs. */
  ghost predicate GoodCapture(kernel: PointKernel, h: Header, rows: seq<Row>) {
    && ValidHeader(h) && h.count == |rows|
    && (forall i :: 0 <= i < |rows| ==> GoodRow(kernel, h.schema, h.sourceSequence, rows[i]))
    && (forall i, j :: 0 <= i < j < |rows| ==> rows[i].id != rows[j].id)
  }

  /** The lines of the exported file. */
  ghost function ExportLines(h: Header, rows: seq<Row>): (lines: seq<Json>)
    requires forall i :: 0 <= i < |rows| ==> Encodes(h.schema, rows[i]) && RowJson(EncodedRow(h.schema, rows[i])).Ok?
  {
    [HeaderJson(h)] + seq(|rows|, i requires 0 <= i < |rows| => RowJson(EncodedRow(h.schema, rows[i])).value)
  }

  lemma ExportWrites(kernel: PointKernel, h: Header, rows: seq<Row>)
    requires GoodCapture(kernel, h, rows)
    ensures forall i :: 0 <= i < |rows| ==> Encodes(h.schema, rows[i]) && RowJson(EncodedRow(h.schema, rows[i])).Ok?
  {
    hide GoodRow, Encodes, RowJson, ValidHeader;
    forall i | 0 <= i < |rows| ensures Encodes(h.schema, rows[i]) && RowJson(EncodedRow(h.schema, rows[i])).Ok? {
      GoodIsShaped(kernel, h.schema, h.sourceSequence, rows[i]);
      RowRoundTrip(h.schema, h.schema, h.sourceSequence, rows[i]);
    }
  }

  lemma BareKinds(schema: Schema)
    ensures SameKinds(schema, BareSchema(schema))
  {
  }

  /** What an exported file reads as: one complete mutation for each captured row. */
  lemma ExportReads(kernel: PointKernel, h: Header, rows: seq<Row>, config: Config, schema: Schema, ms: seq<PointMutation>)
    requires GoodCapture(kernel, h, rows) && Matches(h, config, schema)
    requires forall i :: 0 <= i < |rows| ==> Encodes(h.schema, rows[i]) && RowJson(EncodedRow(h.schema, rows[i])).Ok?
    ensures Reads(config, schema, ExportLines(h, rows), ms)
      <==> |ms| == |rows| && forall i :: 0 <= i < |ms| ==> ms[i] == Restores(h.schema, rows[i])
  {
    hide GoodRow, Encodes, RowJson, RowOf, Restores, ValidHeader, HeaderOf, HeaderJson;
    var lines, read := ExportLines(h, rows), BareSchema(h.schema);
    HeaderRoundTrip(h);
    BareTwice(h);
    BareKinds(h.schema);
    forall i | 0 <= i < |rows| ensures RowOf(lines[1..][i], h.sourceSequence, read) == Ok(Restores(h.schema, rows[i])) {
      GoodIsShaped(kernel, h.schema, h.sourceSequence, rows[i]);
      RowRoundTrip(h.schema, read, h.sourceSequence, rows[i]);
    }
    RestoresId(h.schema, rows);
    assert RowsDecode(lines[1..], h.sourceSequence, read);
  }

  lemma BareTwice(h: Header)
    ensures h.config.Bare().Bare() == h.config.Bare() && BareSchema(BareSchema(h.schema)) == BareSchema(h.schema)
  {
  }

  lemma RestoresId(schema: Schema, rows: seq<Row>)
    ensures forall i :: 0 <= i < |rows| ==> Restores(schema, rows[i]).id == rows[i].id
  {
  }

  lemma RestoresContent(kernel: PointKernel, h: Header, row: Row, schema: Schema)
    requires GoodRow(kernel, h.schema, h.sourceSequence, row) && BareSchema(h.schema) == BareSchema(schema)
    ensures IsStored(kernel, schema, Restores(h.schema, row), row.content)
  {
    assert BareSchema(h.schema).Keys == h.schema.Keys && BareSchema(schema).Keys == schema.Keys;
    forall t ensures SpecAt(schema, t) == SpecAt(h.schema, t) {
      if t.Named? && t.name in schema { assert BareSchema(h.schema)[t.name] == BareSchema(schema)[t.name]; }
    }
  }

  /** `after` is `points` with the captured IDs replaced by their captured content and every other
      ID untouched. */
  ghost predicate Restored(points: map<int, Content>, rows: seq<Row>, after: map<int, Content>) {
    && (forall i :: 0 <= i < |rows| ==> rows[i].id in after && after[rows[i].id] == rows[i].content)
    && (forall id :: (forall i :: 0 <= i < |rows| ==> rows[i].id != id) ==>
          (id in after <==> id in points) && (id in after && id in points ==> after[id] == points[id]))
  }

  /** Importing an export over any target state gives exactly that target with the exported IDs
      replaced by their exported content, and nothing else. */
  lemma ImportRestoresExport(kernel: PointKernel, h: Header, rows: seq<Row>, config: Config, schema: Schema,
                             points: map<int, Content>, after: map<int, Content>)
    requires GoodCapture(kernel, h, rows) && Matches(h, config, schema)
    ensures forall i :: 0 <= i < |rows| ==> Encodes(h.schema, rows[i]) && RowJson(EncodedRow(h.schema, rows[i])).Ok?
    ensures Imports(kernel, config, schema, points, ExportLines(h, rows), after) <==> Restored(points, rows, after)
  {
    hide GoodRow, Encodes, RowJson, RowOf, Restores, ValidHeader, HeaderOf, HeaderJson, Reads, IsStored, Complete;
    ExportWrites(kernel, h, rows);
    var lines := ExportLines(h, rows);
    var ms := seq(|rows|, i requires 0 <= i < |rows| => Restores(h.schema, rows[i]));
    var cs := seq(|rows|, i requires 0 <= i < |rows| => rows[i].content);
    ExportReads(kernel, h, rows, config, schema, ms);
    forall i | 0 <= i < |rows| ensures IsStored(kernel, schema, ms[i], cs[i]) { RestoresContent(kernel, h, rows[i], schema); }
    RestoresId(h.schema, rows);
    assert Restored(points, rows, after) <==> Replaced(points, ms, cs, after) by { SameReplacement(points, rows, ms, cs, after); }
    if Imports(kernel, config, schema, points, lines, after) {
      var ns, ds :| Reads(config, schema, lines, ns) && StoredAll(kernel, schema, ns, ds) && Replaced(points, ns, ds, after);
      ExportReads(kernel, h, rows, config, schema, ns);
      assert ns == ms;
      ReadsComplete(config, schema, lines, ms);
      forall i | 0 <= i < |rows| ensures ds[i] == cs[i] { StoredOnce(kernel, schema, ms[i], ds[i], cs[i]); }
      assert ds == cs;
    }
  }

  lemma SameReplacement(points: map<int, Content>, rows: seq<Row>, ms: seq<PointMutation>, cs: seq<Content>, after: map<int, Content>)
    requires |rows| == |ms| == |cs| && forall i :: 0 <= i < |rows| ==> ms[i].id == rows[i].id && cs[i] == rows[i].content
    ensures Restored(points, rows, after) <==> Replaced(points, ms, cs, after)
  {
  }

  // ---------------------------------------------------------------- both together

  lemma {:induction false} RestoredExists(points: map<int, Content>, rows: seq<Row>) returns (after: map<int, Content>)
    requires forall i, j :: 0 <= i < j < |rows| ==> rows[i].id != rows[j].id
    ensures Restored(points, rows, after)
    decreases |rows|
  {
    after := points;
    if rows != [] {
      var n := |rows| - 1;
      var before := RestoredExists(points, rows[..n]);
      after := before[rows[n].id := rows[n].content];
      forall i | 0 <= i < |rows| ensures rows[i].id in after && after[rows[i].id] == rows[i].content {
        if i < n { assert rows[..n][i].id in before; }
      }
    }
  }

  /** The lines that `export_ndjson` writes after the header. */
  method WriteRows(rows: seq<Row>) returns (lines: Result<seq<Json>>)
    ensures lines.Ok? <==> forall i :: 0 <= i < |rows| ==> RowJson(rows[i]).Ok?
    ensures lines.Ok? ==> |lines.value| == |rows| && forall i :: 0 <= i < |rows| ==> RowJson(rows[i]) == Ok(lines.value[i])
  {
    hide RowJson;
    var written := [];
    for i := 0 to |rows|
      invariant |written| == i && forall k :: 0 <= k < i ==> RowJson(rows[k]) == Ok(written[k])
    {
      var line := RowJson(rows[i]);
      if line.Err? { return Err; }
      written := written + [line.value];
    }
    return Ok(written);
  }

  /** `export_ndjson` of a captured collection followed by `import_ndjson` into another. Within the row
      limit of a matching field-aware target, a good capture is always imported, and the target then
      is what it was with the captured IDs replaced. */
  method ExportThenImport(config: Config, schema: Schema, sourceSequence: int, rows: array<Row>, target: Collection) returns (r: Outcome)
    requires target.Valid()
    modifies rows, target
    ensures target.Valid() && (!r.Imported? ==> target.points == old(target.points))
    ensures Transfers(target, Header(config, schema, rows.Length, sourceSequence), old(rows[..])) ==>
      r == Imported(rows.Length) && Restored(old(target.points), old(rows[..]), target.points)
  {
    ghost var h, was := Header(config, schema, rows.Length, sourceSequence), rows[..];
    ghost var good := Transfers(target, h, was);
    if good { TransferWrites(target, h, was); }
    hide Transfers, Encodes, RowJson, HeaderJson, Imports, Restored, ValidConfig, ValidField, InCatalog;
    var header := EncodeExport(config, schema, sourceSequence, rows);
    if header.Err? { return Rejected; }
    var lines := WriteRows(rows[..]);
    if lines.Err? { return Rejected; }
    var file := [header.value] + lines.value;
    if good { TransferImports(target, h, was, target.points, file); }
    r := target.ImportNdjson(file);
    if good { TransferRestores(target, h, was, old(target.points), file, target.points); }
  }

  /** A good capture, a matching field-aware target and its row limit. */
  ghost predicate Transfers(target: Collection, h: Header, rows: seq<Row>) {
    && GoodCapture(target.kernel, h, rows) && Matches(h, target.config, target.schema)
    && target.fieldAware && |rows| <= target.maxBatchRows
  }

  lemma TransferWrites(target: Collection, h: Header, rows: seq<Row>)
    requires Transfers(target, h, rows)
    ensures ValidConfig(h.config) && (forall n :: n in h.schema ==> ValidField(h.schema[n]))
    ensures forall i :: 0 <= i < |rows| ==> Encodes(h.schema, rows[i]) && RowJson(EncodedRow(h.schema, rows[i])).Ok?
  {
    ExportWrites(target.kernel, h, rows);
    ValidParts(h);
  }

  lemma TransferImports(target: Collection, h: Header, rows: seq<Row>, points: map<int, Content>, file: seq<Json>)
    requires Transfers(target, h, rows) && |file| == |rows| + 1 && file[0] == HeaderJson(h)
    requires forall i :: 0 <= i < |rows| ==> Encodes(h.schema, rows[i]) && RowJson(EncodedRow(h.schema, rows[i])) == Ok(file[i + 1])
    ensures target.fieldAware && |file| - 1 <= target.maxBatchRows && file[0].Obj? && IsPointHeader(file[0].members)
    ensures exists after :: Imports(target.kernel, target.config, target.schema, points, file, after)
  {
    ImportIsAccepted(target.kernel, h, rows, target.config, target.schema, points, file);
  }

  lemma TransferRestores(target: Collection, h: Header, rows: seq<Row>, points: map<int, Content>, file: seq<Json>, after: map<int, Content>)
    requires Transfers(target, h, rows) && |file| == |rows| + 1 && file[0] == HeaderJson(h)
    requires forall i :: 0 <= i < |rows| ==> Encodes(h.schema, rows[i]) && RowJson(EncodedRow(h.schema, rows[i])) == Ok(file[i + 1])
    ensures Imports(target.kernel, target.config, target.schema, points, file, after) ==> Restored(points, rows, after)
  {
    ImportIsAccepted(target.kernel, h, rows, target.config, target.schema, points, file);
    ImportRestoresExport(target.kernel, h, rows, target.config, target.schema, points, after);
  }

  lemma ValidParts(h: Header)
    requires ValidHeader(h)
    ensures ValidConfig(h.config) && forall n :: n in h.schema ==> ValidField(h.schema[n])
  {
  }

  lemma ImportIsAccepted(kernel: PointKernel, h: Header, rows: seq<Row>, config: Config, schema: Schema, points: map<int, Content>, lines: seq<Json>)
    requires GoodCapture(kernel, h, rows) && Matches(h, config, schema) && |lines| == |rows| + 1 && lines[0] == HeaderJson(h)
    requires forall i :: 0 <= i < |rows| ==> Encodes(h.schema, rows[i]) && RowJson(EncodedRow(h.schema, rows[i])) == Ok(lines[i + 1])
    ensures lines == ExportLines(h, rows) && lines[0].Obj? && IsPointHeader(lines[0].members)
    ensures exists after :: Imports(kernel, config, schema, points, lines, after)
  {
    hide Encodes, RowJson, Imports, Matches, Restored, GoodRow, ValidHeader;
    assert lines == ExportLines(h, rows);
    var after := RestoredExists(points, rows);
    ImportRestoresExport(kernel, h, rows, config, schema, points, after);
  }
}
