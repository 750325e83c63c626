/**
 Rows all the way: into batches (lib/parquex/input.ex), over the native boundary into columns
 (native/parquex_nif/src/writer.rs), out of the columns (native/parquex_nif/src/reader.rs), and
 back to rows, under the schema that the reader reports.
 */
module RowsThroughFiles {
  import opened Text
  import opened Sequences
  import opened SchemaTypes
  import R = InputRows
  import N = NestedColumns

  /** How a value of a row is a term at the native boundary, and back. */
  datatype Boundary = Boundary(toTerm: R.Value -> N.Term, fromTerm: N.Term -> R.Value)

  ghost predicate Faithful(boundary: Boundary) {
    forall v :: boundary.fromTerm(boundary.toTerm(v)) == v
  }

  /** What a file is written with. */
  datatype Native = Native(codec: N.Codec, boundary: Boundary, maxRows: nat)

  // ---------- The schema ----------

  function ArrowFields(schema: seq<ElixirField>): Option<seq<Field>> {
    ToArrowFields(EncodeFields(schema))
  }

  /** The schema that the reader reports. */
  function ReportedSchema(fields: seq<Field>): Option<seq<ElixirField>> {
    var ds := FromArrowFields(fields);
    if ds.None? then None else DecodeFields(ds.value)
  }

  lemma SchemaReported(schema: seq<ElixirField>)
    requires AllSupported(schema)
    ensures ArrowFields(schema).Some? && N.AllBuildable(ArrowFields(schema).value)
    ensures ReportedSchema(ArrowFields(schema).value) == Some(schema)
  {
    hide *;
    N.AllSupportedBuild(schema);
    FieldsKept(schema);
    AllSupportedFit(schema);
    FieldsDecoded(schema);
    SchemaPieces(schema);
  }

  lemma SchemaPieces(schema: seq<ElixirField>)
    ensures ArrowFields(schema) == ToArrowFields(EncodeFields(schema))
    ensures BackFields(EncodeFields(schema)) == Some(EncodeFields(schema)) && ArrowFields(schema).Some? ==>
              ReportedSchema(ArrowFields(schema).value) == DecodeFields(EncodeFields(schema))
  {
    hide EncodeFields, ToArrowFields, FromArrowFields, DecodeFields;
  }

  lemma ArrowRest(schema: seq<ElixirField>)
    requires schema != [] && ArrowFields(schema).Some?
    ensures ToArrow(EncodeType(schema[0].valueType)).Some? && ArrowFields(schema[1..]).Some?
    ensures ArrowFields(schema).value ==
            [Field(schema[0].name, ToArrow(EncodeType(schema[0].valueType)).value, schema[0].nullable)]
            + ArrowFields(schema[1..]).value
  {
    hide EncodeType, ToArrow;
    var ds := EncodeFields(schema);
    assert ds[0] == EncodeField(schema[0]) && ds[1..] == EncodeFields(schema[1..]);
    var first, rest := ToArrowField(ds[0]), ToArrowFields(ds[1..]);
    assert ToArrowFields(ds) == if first.None? || rest.None? then None else Some([first.value] + rest.value);
  }

  // ---------- One batch ----------

  /** `Batch.to_native`. */
  function NativeColumns(columns: map<string, seq<R.Value>>, schema: seq<ElixirField>, boundary: Boundary)
    : (r: seq<(string, N.Term)>)
    requires forall name :: name in R.FieldNames(schema) ==> name in columns
    ensures |r| == |schema| && forall i :: 0 <= i < |r| ==> r[i].0 == schema[i].name && r[i].1.ListTerm?
  {
    if schema == [] then []
    else
      [(schema[0].name, N.ListTerm(Map(boundary.toTerm, columns[schema[0].name])))]
      + NativeColumns(columns, schema[1..], boundary)
  }

  function ToNative(b: R.Batch, boundary: Boundary): N.NativeBatch
    requires R.WellFormed(b)
  {
    N.NativeBatch(b.rowCount, NativeColumns(b.columns, b.schema, boundary))
  }

  /** `Batch.from_native`: the names and lengths must be those of the schema. */
  function FromNative(schema: seq<ElixirField>, batch: N.NativeBatch, boundary: Boundary): (r: Option<R.Batch>)
    ensures r.Some? ==> R.WellFormed(r.value) && r.value.schema == schema
  {
    if NamedColumns(schema, batch.columns, batch.rowCount) then
      ColumnsShape(schema, batch.columns, batch.rowCount, boundary);
      Some(R.Batch(schema, batch.rowCount, Columns(batch.columns, boundary)))
    else None
  }

  predicate NamedColumns(schema: seq<ElixirField>, columns: seq<(string, N.Term)>, rowCount: nat) {
    && |columns| == |schema|
    && forall i :: 0 <= i < |schema| ==>
         columns[i].0 == schema[i].name && columns[i].1.ListTerm? && |columns[i].1.items| == rowCount
  }

  function Columns(columns: seq<(string, N.Term)>, boundary: Boundary): map<string, seq<R.Value>>
    requires forall i :: 0 <= i < |columns| ==> columns[i].1.ListTerm?
  {
    if columns == [] then map[]
    else Columns(columns[1..], boundary)[columns[0].0 := Map(boundary.fromTerm, columns[0].1.items)]
  }

  lemma {:induction false} ColumnsShape(schema: seq<ElixirField>, columns: seq<(string, N.Term)>, rowCount: nat,
                                        boundary: Boundary)
    requires NamedColumns(schema, columns, rowCount)
    ensures var all := Columns(columns, boundary);
            && all.Keys == (set name | name in R.FieldNames(schema))
            && forall name :: name in all ==> |all[name]| == rowCount
  {
    if schema != [] {
      ColumnsShape(schema[1..], columns[1..], rowCount, boundary);
      assert forall name :: name in R.FieldNames(schema) <==>
                            name == schema[0].name || name in R.FieldNames(schema[1..]);
    }
  }

  /** A batch written to a file and read from it: the native columns in between, and the reported schema. */
  function ThroughFile(b: R.Batch, native: Native): Option<R.Batch>
    requires R.WellFormed(b) && AllSupported(b.schema)
  {
    SchemaReported(b.schema);
    var fields := ArrowFields(b.schema).value;
    var batch := ToNative(b, native.boundary);
    var arrays := N.DecodeBatch(native.codec, fields, batch, native.maxRows);
    if arrays.None? then None
    else
      N.ColumnsBuilt(native.codec, fields, batch.columns, b.rowCount);
      FromNative(ReportedSchema(fields).value, N.EncodeBatch(native.codec, fields, arrays.value, b.rowCount),
                 native.boundary)
  }

  /** The native builders accept the encoded value for its field. */
  predicate Held(v: R.Value, f: ElixirField, native: Native) {
    var t := ToArrow(EncodeType(f.valueType));
    t.Some? && N.Conforms(native.codec, t.value, f.nullable, native.boundary.toTerm(v))
  }

  /** No map in the value has entries beyond the fields of its struct, which the builders would drop. */
  predicate Plain(v: R.Value, f: ElixirField, native: Native) {
    var t := ToArrow(EncodeType(f.valueType));
    t.Some? && N.NoExtras(t.value, native.boundary.toTerm(v))
  }

  predicate RowHeld(row: R.Row, schema: seq<ElixirField>, native: Native) {
    schema == []
    || (schema[0].name in row && Held(row[schema[0].name], schema[0], native) && RowHeld(row, schema[1..], native))
  }

  predicate RowPlain(row: R.Row, schema: seq<ElixirField>, native: Native) {
    schema == []
    || (schema[0].name in row && Plain(row[schema[0].name], schema[0], native) && RowPlain(row, schema[1..], native))
  }

  lemma {:induction false} AllConformAt(codec: N.Codec, t: DataType, nullable: bool, terms: seq<N.Term>)
    ensures N.AllConform(codec, t, nullable, terms) <==>
            forall i :: 0 <= i < |terms| ==> N.Conforms(codec, t, nullable, terms[i])
    ensures N.NoneHasExtras(t, terms) <==> forall i :: 0 <= i < |terms| ==> N.NoExtras(t, terms[i])
  {
    hide N.Conforms, N.NoExtras;
    if terms != [] {
      AllConformAt(codec, t, nullable, terms[1..]);
      assert forall i :: 0 < i < |terms| ==> terms[i] == terms[1..][i - 1];
    }
  }

  predicate AreColumns(rows: seq<R.Row>, columns: map<string, seq<R.Value>>, schema: seq<ElixirField>) {
    forall name :: name in R.FieldNames(schema) ==>
      (forall row :: row in rows ==> name in row) && name in columns && columns[name] == R.Column(rows, name)
  }

  /** The columns of a batch conform exactly if every row of it is held. */
  lemma {:induction false} ColumnsHeld(rows: seq<R.Row>, columns: map<string, seq<R.Value>>, schema: seq<ElixirField>,
                                       native: Native)
    requires AreColumns(rows, columns, schema)
    requires ArrowFields(schema).Some?
    ensures |ArrowFields(schema).value| == |schema|
    ensures N.ColumnsConform(native.codec, ArrowFields(schema).value,
                             NativeColumns(columns, schema, native.boundary)) <==>
            forall row :: row in rows ==> RowHeld(row, schema, native)
    ensures N.ColumnsHaveNoExtras(ArrowFields(schema).value, NativeColumns(columns, schema, native.boundary)) <==>
            forall row :: row in rows ==> RowPlain(row, schema, native)
  {
    if schema != [] {
      hide Held, Plain, N.AllConform, N.NoneHasExtras, R.Column;
      ArrowRest(schema);
      var fields := ArrowFields(schema).value;
      assert fields[1..] == ArrowFields(schema[1..]).value;
      var all := NativeColumns(columns, schema, native.boundary);
      assert all[1..] == NativeColumns(columns, schema[1..], native.boundary);
      ColumnsHeld(rows, columns, schema[1..], native);
      FirstColumnHeld(rows, schema[0], native);
      hide ArrowFields, NativeColumns, R.FieldNames;
    }
  }

  lemma FirstColumnHeld(rows: seq<R.Row>, f: ElixirField, native: Native)
    requires forall row :: row in rows ==> f.name in row
    requires ToArrow(EncodeType(f.valueType)).Some?
    ensures var t, terms := ToArrow(EncodeType(f.valueType)).value, Map(native.boundary.toTerm, R.Column(rows, f.name));
            && (N.AllConform(native.codec, t, f.nullable, terms) <==>
                forall row :: row in rows ==> Held(row[f.name], f, native))
            && (N.NoneHasExtras(t, terms) <==> forall row :: row in rows ==> Plain(row[f.name], f, native))
  {
    var t, terms := ToArrow(EncodeType(f.valueType)).value, Map(native.boundary.toTerm, R.Column(rows, f.name));
    hide ToArrow, EncodeType, N.Conforms, N.NoExtras;
    AllConformAt(native.codec, t, f.nullable, terms);
    assert forall i :: 0 <= i < |rows| ==> rows[i] in rows && terms[i] == native.boundary.toTerm(rows[i][f.name]);
  }

  /** What the reader gives back has the schema's names and the batch's length in every column. */
  lemma {:induction false} EncodedFit(codec: N.Codec, fields: seq<Field>, arrays: seq<N.Column>, rowCount: nat)
    requires N.FieldsShaped(fields, arrays, rowCount)
    ensures N.ColumnsFit(fields, N.EncodeColumns(codec, fields, arrays, rowCount), rowCount)
  {
    if fields != [] {
      EncodedFit(codec, fields[1..], arrays[1..], rowCount);
      N.ReadRangeAt(codec, fields[0].dataType, arrays[0], 0, N.Len(arrays[0]));
      hide N.FieldsShaped, N.Shaped, N.ReadRange;
      var all, rest := N.EncodeColumns(codec, fields, arrays, rowCount),
                       N.EncodeColumns(codec, fields[1..], arrays[1..], rowCount);
      assert forall i :: 0 < i < |fields| ==> all[i] == rest[i - 1] && fields[i] == fields[1..][i - 1];
    }
  }

  lemma {:induction false} ColumnsBack(columns: map<string, seq<R.Value>>, schema: seq<ElixirField>, boundary: Boundary)
    requires Faithful(boundary) && Distinct(R.FieldNames(schema))
    requires forall name :: name in R.FieldNames(schema) ==> name in columns
    ensures Columns(NativeColumns(columns, schema, boundary), boundary) ==
            map name | name in R.FieldNames(schema) :: columns[name]
  {
    if schema != [] {
      NamesSplit(schema);
      ColumnsBack(columns, schema[1..], boundary);
      ValuesBack(columns[schema[0].name], boundary);
      FirstNative(columns, schema, boundary);
      hide Map, NativeColumns, R.FieldNames, Distinct, Faithful;
    }
  }

  lemma NamesSplit(schema: seq<ElixirField>)
    requires schema != [] && Distinct(R.FieldNames(schema))
    ensures Distinct(R.FieldNames(schema[1..])) && schema[0].name !in R.FieldNames(schema[1..])
    ensures forall name :: name in R.FieldNames(schema) <==> name == schema[0].name || name in R.FieldNames(schema[1..])
  {
    var names := R.FieldNames(schema);
    assert names[1..] == R.FieldNames(schema[1..]) && names[0] == schema[0].name;
  }

  lemma FirstNative(columns: map<string, seq<R.Value>>, schema: seq<ElixirField>, boundary: Boundary)
    requires schema != [] && forall name :: name in R.FieldNames(schema) ==> name in columns
    ensures var all := NativeColumns(columns, schema, boundary);
            all[0] == (schema[0].name, N.ListTerm(Map(boundary.toTerm, columns[schema[0].name])))
            && all[1..] == NativeColumns(columns, schema[1..], boundary)
  {
    hide Map;
  }

  lemma ValuesBack(values: seq<R.Value>, boundary: Boundary)
    requires Faithful(boundary)
    ensures Map(boundary.fromTerm, Map(boundary.toTerm, values)) == values
  {
    assert forall v :: boundary.fromTerm(boundary.toTerm(v)) == v;
  }

  /** The native batch of rows fits the schema. */
  lemma NativeFits(b: R.Batch, native: Native)
    requires R.WellFormed(b) && AllSupported(b.schema)
    ensures ArrowFields(b.schema).Some?
    ensures N.ColumnsFit(ArrowFields(b.schema).value, ToNative(b, native.boundary).columns, b.rowCount)
  {
    SchemaReported(b.schema);
    NamesKept(b.schema);
    ColumnLengths(b.columns, b.schema, native.boundary, b.rowCount);
  }

  lemma {:induction false} NamesKept(schema: seq<ElixirField>)
    requires ArrowFields(schema).Some?
    ensures |ArrowFields(schema).value| == |schema|
    ensures forall i :: 0 <= i < |schema| ==> ArrowFields(schema).value[i].name == schema[i].name
  {
    if schema != [] {
      ArrowRest(schema);
      NamesKept(schema[1..]);
      hide ArrowFields;
      assert forall i :: 0 < i < |schema| ==> schema[i] == schema[1..][i - 1];
    }
  }

  lemma {:induction false} ColumnLengths(columns: map<string, seq<R.Value>>, schema: seq<ElixirField>,
                                         boundary: Boundary,
                                         rowCount: nat)
    requires forall name :: name in R.FieldNames(schema) ==> name in columns && |columns[name]| == rowCount
    ensures forall i :: 0 <= i < |schema| ==> |NativeColumns(columns, schema, boundary)[i].1.items| == rowCount
  {
    if schema != [] {
      ColumnLengths(columns, schema[1..], boundary, rowCount);
      var all, rest := NativeColumns(columns, schema, boundary), NativeColumns(columns, schema[1..], boundary);
      assert forall i :: 0 < i < |schema| ==> all[i] == rest[i - 1];
    }
  }

  lemma FileBatch(b: R.Batch, native: Native)
    requires R.WellFormed(b) && AllSupported(b.schema) && b.schema != [] && Distinct(R.FieldNames(b.schema))
    requires b.rowCount <= native.maxRows && N.Lossless(native.codec) && Faithful(native.boundary)
    ensures ArrowFields(b.schema).Some?
    ensures var fields, columns := ArrowFields(b.schema).value, NativeColumns(b.columns, b.schema, native.boundary);
            && |fields| == |b.schema|
            && (ThroughFile(b, native).Some? <==> N.ColumnsConform(native.codec, fields, columns))
            && (ThroughFile(b, native).Some? && N.ColumnsHaveNoExtras(fields, columns) ==>
                  ThroughFile(b, native) == Some(b))
  {
    SchemaReported(b.schema);
    NamesKept(b.schema);
    NativeFits(b, native);
    var fields, batch := ArrowFields(b.schema).value, ToNative(b, native.boundary);
    N.BatchReadsBack(native.codec, fields, batch, native.maxRows);
    N.ColumnsBuilt(native.codec, fields, batch.columns, b.rowCount);
    hide ArrowFields, ReportedSchema, N.DecodeBatch, N.ColumnsConform, N.ColumnsHaveNoExtras, N.FieldsShaped,
        N.EncodeColumns,
        N.Lossless, AllSupported, NativeColumns, Columns, N.BuildColumns;
    var arrays := N.DecodeBatch(native.codec, fields, batch, native.maxRows);
    if arrays.Some? {
      EncodedFit(native.codec, fields, arrays.value, b.rowCount);
      ColumnsBack(b.columns, b.schema, native.boundary);
      assert b.columns == map name | name in R.FieldNames(b.schema) :: b.columns[name];
    }
  }

  /** A batch goes through the file if and only if its rows are held, and is then unchanged if they are plain. */
  lemma BatchThroughFile(rows: seq<R.Row>, schema: seq<ElixirField>, native: Native)
    requires schema != [] && AllSupported(schema) && Distinct(R.FieldNames(schema))
    requires |rows| <= native.maxRows && forall row :: row in rows ==> R.HasNames(row, schema)
    requires N.Lossless(native.codec) && Faithful(native.boundary)
    ensures R.WellFormed(R.MakeBatch(rows, schema))
    ensures var through := ThroughFile(R.MakeBatch(rows, schema), native);
            && (through.Some? <==> forall row :: row in rows ==> RowHeld(row, schema, native))
            && (through.Some? && (forall row :: row in rows ==> RowPlain(row, schema, native)) ==>
                  through == Some(R.MakeBatch(rows, schema)))
  {
    var b := R.MakeBatch(rows, schema);
    SchemaReported(schema);
    assert AreColumns(rows, b.columns, schema);
    ColumnsHeld(rows, b.columns, schema, native);
    hide ArrowFields, ThroughFile, NativeColumns, N.ColumnsConform, N.ColumnsHaveNoExtras, RowHeld, RowPlain,
        N.Lossless,
        AllSupported;
    FileBatch(b, native);
  }

  // ---------- All batches ----------

  /** All batches in order, up to the first that is refused. */
  ghost function AllThroughFile(batches: seq<R.Batch>, native: Native): (r: Option<seq<R.Batch>>)
    requires forall b :: b in batches ==> R.WellFormed(b) && AllSupported(b.schema)
    ensures r.Some? ==> forall b :: b in r.value ==> R.WellFormed(b)
  {
    if batches == [] then Some([])
    else
      var first := ThroughFile(batches[0], native);
      if first.None? then None
      else
        var rest := AllThroughFile(batches[1..], native);
        if rest.None? then None else Some([first.value] + rest.value)
  }

  lemma {:induction false} MadeBatches(chunks: seq<seq<R.Row>>, schema: seq<ElixirField>)
    requires forall chunk, row :: chunk in chunks && row in chunk ==> R.HasNames(row, schema)
    ensures forall b :: b in R.MakeBatches(chunks, schema) ==> R.WellFormed(b) && b.schema == schema
  {
    hide R.HasNames;
    if chunks != [] {
      MadeBatches(chunks[1..], schema);
      assert chunks[0] in chunks;
      MadeBatch(chunks[0], schema);
      hide R.MakeBatch, R.WellFormed;
    }
  }

  lemma MadeBatch(rows: seq<R.Row>, schema: seq<ElixirField>)
    requires forall row :: row in rows ==> R.HasNames(row, schema)
    ensures R.WellFormed(R.MakeBatch(rows, schema)) && R.MakeBatch(rows, schema).schema == schema
  {
  }

  lemma {:induction false} ChunksThroughFile(chunks: seq<seq<R.Row>>, schema: seq<ElixirField>, native: Native)
    requires schema != [] && AllSupported(schema) && Distinct(R.FieldNames(schema))
    requires forall chunk :: chunk in chunks ==> |chunk| <= native.maxRows
    requires forall chunk, row :: chunk in chunks && row in chunk ==> R.HasNames(row, schema)
    requires N.Lossless(native.codec) && Faithful(native.boundary)
    ensures forall b :: b in R.MakeBatches(chunks, schema) ==> R.WellFormed(b) && AllSupported(b.schema)
    ensures var through := AllThroughFile(R.MakeBatches(chunks, schema), native);
            && (through.Some? <==> forall row :: row in Flatten(chunks) ==> RowHeld(row, schema, native))
            && (through.Some? && (forall row :: row in Flatten(chunks) ==> RowPlain(row, schema, native)) ==>
                  through == Some(R.MakeBatches(chunks, schema)))
  {
    hide R.HasNames, RowHeld, RowPlain, R.MakeBatch, R.WellFormed, ThroughFile, AllSupported, N.Lossless,
        Faithful, Distinct;
    MadeBatches(chunks, schema);
    if chunks != [] {
      assert chunks[0] in chunks;
      BatchThroughFile(chunks[0], schema, native);
      ChunksThroughFile(chunks[1..], schema, native);
      var all := R.MakeBatches(chunks, schema);
      assert all[0] == R.MakeBatch(chunks[0], schema) && all[1..] == R.MakeBatches(chunks[1..], schema);
      assert forall row :: row in Flatten(chunks) <==> row in chunks[0] || row in Flatten(chunks[1..]);
    }
  }

  // ---------- The theorem ----------

  /** Write rows under a schema and read them back, with batches of at most `batchRows` rows. */
  ghost function WriteAndRead(rows: seq<R.Row>, schema: seq<ElixirField>, batchRows: nat, native: Native,
                              runtime: R.Runtime): Option<seq<R.Row>>
    requires batchRows > 0 && AllSupported(schema)
  {
    var batches := R.Batches(rows, schema, batchRows, runtime);
    if batches.None? then None
    else
      BatchesMade(rows, schema, batchRows, runtime);
      var read := AllThroughFile(batches.value, native);
      if read.None? then None else Some(R.DecodeRows(read.value, runtime))
  }

  lemma BatchesMade(rows: seq<R.Row>, schema: seq<ElixirField>, batchRows: nat, runtime: R.Runtime)
    requires batchRows > 0 && R.Batches(rows, schema, batchRows, runtime).Some?
    ensures var encoded, batches := Encoded(rows, schema, runtime), R.Batches(rows, schema, batchRows, runtime).value;
            && |encoded| == |rows| && (forall row :: row in encoded ==> R.HasNames(row, schema))
            && (forall chunk, row :: chunk in Chunks(encoded, batchRows) && row in chunk ==> R.HasNames(row, schema))
            && batches == R.MakeBatches(Chunks(encoded, batchRows), schema)
    ensures forall b :: b in R.Batches(rows, schema, batchRows, runtime).value ==> R.WellFormed(b) && b.schema == schema
  {
    hide R.Normal, R.WellFormed, R.MakeBatch;
    R.NormalizedNames(rows, schema, runtime);
    var encoded := Encoded(rows, schema, runtime);
    R.ChunksHold(encoded, batchRows, schema);
    hide R.HasNames;
    MadeBatches(Chunks(encoded, batchRows), schema);
    var none: seq<seq<R.Row>> := [[]];
    assert none[1..] == [];
  }

  /** The rows as `normalize_rows` encodes them. */
  function Encoded(rows: seq<R.Row>, schema: seq<ElixirField>, runtime: R.Runtime): seq<R.Row> {
    var normalized := R.NormalizeRows(rows, schema, runtime);
    if normalized.Some? then normalized.value else []
  }

  /** An empty input still makes one batch. */
  function Chunks(encoded: seq<R.Row>, n: nat): (chunks: seq<seq<R.Row>>)
    requires n > 0
    ensures Flatten(chunks) == encoded && forall chunk :: chunk in chunks ==> |chunk| <= n
  {
    if encoded == [] then
      var none: seq<seq<R.Row>> := [[]];
      assert none[1..] == [];
      none
    else Chunk(encoded, n)
  }

  /** The native builders accept every value of the row, once it is encoded. */
  predicate Storable(row: R.Row, schema: seq<ElixirField>, native: Native, runtime: R.Runtime) {
    R.Encodable(row, schema, runtime) && RowHeld(R.EncodeRow(row, schema, runtime), schema, native)
  }

  predicate StoredPlain(row: R.Row, schema: seq<ElixirField>, native: Native, runtime: R.Runtime) {
    R.Encodable(row, schema, runtime) && RowPlain(R.EncodeRow(row, schema, runtime), schema, native)
  }

  lemma EncodedRows(rows: seq<R.Row>, schema: seq<ElixirField>, native: Native, runtime: R.Runtime)
    requires forall row :: row in rows ==> R.Normal(row, schema, runtime)
    ensures (forall row :: row in Encoded(rows, schema, runtime) ==> RowHeld(row, schema, native)) <==>
            (forall row :: row in rows ==> Storable(row, schema, native, runtime))
    ensures (forall row :: row in Encoded(rows, schema, runtime) ==> RowPlain(row, schema, native)) <==>
            (forall row :: row in rows ==> StoredPlain(row, schema, native, runtime))
  {
    hide RowHeld, RowPlain, R.EncodeRow, R.RowMatches, R.Encodable;
    var encoded := Encoded(rows, schema, runtime);
    assert forall i :: 0 <= i < |rows| ==> rows[i] in rows && encoded[i] in encoded;
    assert forall i :: 0 <= i < |rows| ==> encoded[i] == R.EncodeRow(rows[i], schema, runtime);
  }

  /** A record batch needs a column. */
  lemma NoColumnsRefused(rows: seq<R.Row>, batchRows: nat, native: Native, runtime: R.Runtime)
    requires batchRows > 0 && AllSupported([])
    ensures WriteAndRead(rows, [], batchRows, native, runtime) == None
  {
    var batches := R.Batches(rows, [], batchRows, runtime);
    if batches.Some? {
      BatchesMade(rows, [], batchRows, runtime);
      SchemaReported([]);
      hide R.Batches, Encoded;
      assert Chunks(Encoded(rows, [], runtime), batchRows) != [];
      assert ThroughFile(batches.value[0], native) == None;
    }
  }

  /** All batches of accepted rows go through exactly if every row can be stored, and unchanged if they are plain. */
  lemma BatchesThroughFile(rows: seq<R.Row>, schema: seq<ElixirField>, batchRows: nat, native: Native,
                           runtime: R.Runtime)
    requires 0 < batchRows <= native.maxRows && AllSupported(schema) && schema != []
    requires N.Lossless(native.codec) && Faithful(native.boundary)
    requires R.Batches(rows, schema, batchRows, runtime).Some?
    ensures forall b :: b in R.Batches(rows, schema, batchRows, runtime).value ==>
              R.WellFormed(b) && AllSupported(b.schema)
    ensures var batches := R.Batches(rows, schema, batchRows, runtime).value;
            var through := AllThroughFile(batches, native);
            && (through.Some? <==> forall row :: row in rows ==> Storable(row, schema, native, runtime))
            && (through.Some? && (forall row :: row in rows ==> StoredPlain(row, schema, native, runtime)) ==>
                  through == Some(batches))
  {
    hide *;
    R.AcceptedWhen(rows, schema, batchRows, runtime);
    BatchesMade(rows, schema, batchRows, runtime);
    EncodedRows(rows, schema, native, runtime);
    ChunksThroughFile(Chunks(Encoded(rows, schema, runtime), batchRows), schema, native);
  }

  /**
   Rows all the way. Under a supported schema, with lossless conversions and batches within the native bound,
   rows are written if and only if there is a column, they are accepted as batches, and the native builders
   accept their encoded values. Then they come back in order, each value through its type, if no map has
   entries that its struct does not have; so they come back unchanged if and only if every value is stable.
   */
  lemma RowsThroughFile(rows: seq<R.Row>, schema: seq<ElixirField>, batchRows: nat, native: Native, runtime: R.Runtime)
    requires 0 < batchRows <= native.maxRows && AllSupported(schema)
    requires N.Lossless(native.codec) && Faithful(native.boundary)
    ensures var batches, read := R.Batches(rows, schema, batchRows, runtime),
                                 WriteAndRead(rows, schema, batchRows, native, runtime);
            && (read.Some? <==>
                  schema != [] && batches.Some? && forall row :: row in rows ==> Storable(row, schema, native, runtime))
            && (read.Some? && (forall row :: row in rows ==> StoredPlain(row, schema, native, runtime)) ==>
                  && (forall row :: row in rows ==> R.Normal(row, schema, runtime))
                  && read.value == R.ReturnedRows(rows, schema, runtime)
                  && (read.value == rows <==>
                        forall row, name :: row in rows && name in row ==>
                          R.Stable(row[name], R.TypeOf(schema, name), runtime)))
  {
    hide R.Batches, R.DecodeRows, R.ReturnedRows, R.Stable, R.WellFormed, R.Normal, AllThroughFile, Storable,
        StoredPlain,
        AllSupported, N.Lossless, Encoded, Chunks, R.HasNames;
    var batches := R.Batches(rows, schema, batchRows, runtime);
    if batches.Some? {
      R.AcceptedRowsComeBack(rows, schema, batchRows, runtime);
      BatchesMade(rows, schema, batchRows, runtime);
      if schema == [] {
        NoColumnsRefused(rows, batchRows, native, runtime);
      } else {
        BatchesThroughFile(rows, schema, batchRows, native, runtime);
      }
    }
  }
}
