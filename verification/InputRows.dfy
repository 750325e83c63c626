/**
 Rows in and rows out (lib/parquex/input.ex, lib/parquex/batch.ex): inferring a schema from
 finite rows, turning rows into column batches, and turning batches back into rows.
 */
module InputRows {
  import opened Text
  import opened Sequences
  import opened Listing
  import opened SchemaTypes

  /** A value in a row; a date-time is its instant in microseconds. */
  datatype Value =
    | Nil
    | Boolean(b: bool)
    | Integer(n: int)
    | Float(x: real)
    | Text(s: string)
    | Bytes(bytes: string)
    | DateTime(micros: int)
    | Other(term: string)

  type Row = map<string, Value>

  datatype Batch = Batch(schema: seq<ElixirField>, rowCount: nat, columns: map<string, seq<Value>>)

  /**
   What the runtime can represent: an integer widened to a float is rounded, or refused when it is too
   large for one, and a date-time holds the instants of some years only.
   */
  datatype Runtime = Runtime(widen: int -> Option<real>, representable: int -> bool)

  // ---------- Values ----------

  /** How many of a unit make a second. */
  function PerSecond(unit: TimeUnit): int {
    match unit
    case Second => 1
    case Millisecond => 1_000
    case Microsecond => 1_000_000
    case Nanosecond => 1_000_000_000
  }

  /** `DateTime.to_unix`: rounded down when the unit is coarser than microseconds. */
  function ToUnix(micros: int, unit: TimeUnit): int {
    if unit.Nanosecond? then micros * 1_000 else micros / (1_000_000 / PerSecond(unit))
  }

  /** `DateTime.from_unix`, when the date is representable. */
  function FromUnix(n: int, unit: TimeUnit): int {
    if unit.Nanosecond? then n / 1_000 else n * (1_000_000 / PerSecond(unit))
  }

  /** `encode_value` raises on an integer that is too large for its float column. */
  predicate Encodes(v: Value, t: ElixirType, runtime: Runtime) {
    v.Integer? && t.EFloat? ==> runtime.widen(v.n).Some?
  }

  /** `encode_value`. */
  function EncodeValue(v: Value, t: ElixirType, runtime: Runtime): Value
    requires Encodes(v, t, runtime)
  {
    if v.Integer? && t.EFloat? then Float(runtime.widen(v.n).value)
    else if v.DateTime? && t.ETimestamp? then Integer(ToUnix(v.micros, t.unit))
    else v
  }

  /** `decode_value`. */
  function DecodeValue(v: Value, t: ElixirType, runtime: Runtime): Value {
    if v.Integer? && t.ETimestamp? && t.timezone == Some("UTC") && runtime.representable(FromUnix(v.n, t.unit))
    then DateTime(FromUnix(v.n, t.unit)) else v
  }

  // ---------- Rows to batches ----------

  function FieldNames(schema: seq<ElixirField>): seq<string> {
    if schema == [] then [] else [schema[0].name] + FieldNames(schema[1..])
  }

  predicate HasNames(row: Row, schema: seq<ElixirField>) {
    forall name :: name in FieldNames(schema) ==> name in row
  }

  /** The row has exactly the fields of the schema, which has no field twice. */
  predicate RowMatches(row: Row, schema: seq<ElixirField>) {
    Distinct(FieldNames(schema)) && HasNames(row, schema) && forall name :: name in row ==> name in FieldNames(schema)
  }

  /** Every value of the schema's fields can be encoded. */
  predicate Encodable(row: Row, schema: seq<ElixirField>, runtime: Runtime) {
    schema == []
    || (&& schema[0].name in row && Encodes(row[schema[0].name], schema[0].valueType, runtime)
        && Encodable(row, schema[1..], runtime))
  }

  /** The row is one that `normalize_rows` accepts: no empty key, the schema's fields, and values that can be
      encoded. */
  predicate Normal(row: Row, schema: seq<ElixirField>, runtime: Runtime) {
    "" !in row && RowMatches(row, schema) && Encodable(row, schema, runtime)
  }

  function EncodeRow(row: Row, schema: seq<ElixirField>, runtime: Runtime): Row
    requires Encodable(row, schema, runtime)
  {
    if schema == [] then map[]
    else
      var value := EncodeValue(row[schema[0].name], schema[0].valueType, runtime);
      EncodeRow(row, schema[1..], runtime)[schema[0].name := value]
  }

  /** `normalize_rows`. */
  function NormalizeRows(rows: seq<Row>, schema: seq<ElixirField>, runtime: Runtime): Option<seq<Row>> {
    if exists row :: row in rows && !Normal(row, schema, runtime) then None
    else Some(seq(|rows|, i requires 0 <= i < |rows| => assert rows[i] in rows; EncodeRow(rows[i], schema, runtime)))
  }

  function Column(rows: seq<Row>, name: string): seq<Value>
    requires forall row :: row in rows ==> name in row
  {
    seq(|rows|, i requires 0 <= i < |rows| => assert rows[i] in rows; rows[i][name])
  }

  /** One batch of a chunk of rows; with no columns there is no row count either. */
  function MakeBatch(rows: seq<Row>, schema: seq<ElixirField>): Batch
    requires forall row :: row in rows ==> HasNames(row, schema)
  {
    Batch(schema, if schema == [] then 0 else |rows|,
          map name | name in FieldNames(schema) ::
            assert forall row :: row in rows ==> HasNames(row, schema);
            Column(rows, name))
  }

  function MakeBatches(chunks: seq<seq<Row>>, schema: seq<ElixirField>): seq<Batch>
    requires forall chunk, row :: chunk in chunks && row in chunk ==> HasNames(row, schema)
  {
    if chunks == [] then [] else [MakeBatch(chunks[0], schema)] + MakeBatches(chunks[1..], schema)
  }

  /** `batches`: at least one batch, so that an empty input still has a schema, whose names are then checked. */
  function Batches(rows: seq<Row>, schema: seq<ElixirField>, batchRows: nat, runtime: Runtime): Option<seq<Batch>>
    requires batchRows > 0
  {
    var normalized := NormalizeRows(rows, schema, runtime);
    if normalized.None? then None
    else if rows == [] then if Distinct(FieldNames(schema)) then Some([MakeBatch([], schema)]) else None
    else
      NormalizedNames(rows, schema, runtime);
      ChunksHold(normalized.value, batchRows, schema);
      Some(MakeBatches(Chunk(normalized.value, batchRows), schema))
  }

  lemma {:induction false} EncodeRowNames(row: Row, schema: seq<ElixirField>, runtime: Runtime)
    requires Encodable(row, schema, runtime)
    ensures EncodeRow(row, schema, runtime).Keys == set name | name in FieldNames(schema)
  {
    if schema != [] {
      EncodeRowNames(row, schema[1..], runtime);
      assert forall name :: name in FieldNames(schema) <==> name == schema[0].name || name in FieldNames(schema[1..]);
    }
  }

  lemma NormalizedNames(rows: seq<Row>, schema: seq<ElixirField>, runtime: Runtime)
    ensures var normalized := NormalizeRows(rows, schema, runtime);
            normalized.Some? ==> forall row :: row in normalized.value ==> HasNames(row, schema)
  {
    var normalized := NormalizeRows(rows, schema, runtime);
    if normalized.Some? {
      forall i | 0 <= i < |rows| ensures HasNames(normalized.value[i], schema) {
        assert rows[i] in rows;
        EncodeRowNames(rows[i], schema, runtime);
      }
    }
  }

  lemma {:induction false} ChunksHold(rows: seq<Row>, n: nat, schema: seq<ElixirField>)
    requires n > 0 && forall row :: row in rows ==> HasNames(row, schema)
    ensures forall chunk, row :: chunk in Chunk(rows, n) && row in chunk ==> HasNames(row, schema)
    decreases |rows|
  {
    hide HasNames;
    if |rows| > n {
      assert rows == rows[..n] + rows[n..];
      ChunksHold(rows[n..], n, schema);
    }
  }

  // ---------- Batches to rows ----------

  ghost predicate WellFormed(b: Batch) {
    && b.columns.Keys == (set name | name in FieldNames(b.schema))
    && forall name :: name in b.columns ==> |b.columns[name]| == b.rowCount
  }

  /** One row of `to_rows`, decoded. */
  function DecodedRow(b: Batch, i: nat, schema: seq<ElixirField>, runtime: Runtime): Row
    requires forall name :: name in FieldNames(schema) ==> name in b.columns && i < |b.columns[name]|
  {
    if schema == [] then map[]
    else
      DecodedRow(b, i, schema[1..], runtime)
        [schema[0].name := DecodeValue(b.columns[schema[0].name][i], schema[0].valueType, runtime)]
  }

  function DecodedRows(b: Batch, runtime: Runtime): seq<Row>
    requires WellFormed(b)
  {
    seq(b.rowCount, i requires 0 <= i < b.rowCount => DecodedRow(b, i, b.schema, runtime))
  }

  /** `decode_rows`. */
  ghost function DecodeRows(batches: seq<Batch>, runtime: Runtime): seq<Row>
    requires forall b :: b in batches ==> WellFormed(b)
  {
    if batches == [] then [] else DecodedRows(batches[0], runtime) + DecodeRows(batches[1..], runtime)
  }

  // ---------- The round trip ----------

  /** The type of a field; every name asked for is one of the schema. */
  function TypeOf(schema: seq<ElixirField>, name: string): ElixirType
    requires name in FieldNames(schema)
  {
    if schema[0].name == name then schema[0].valueType else TypeOf(schema[1..], name)
  }

  /** One field's value can be encoded by the type of the field. */
  lemma {:induction false} EncodableAt(row: Row, schema: seq<ElixirField>, runtime: Runtime, name: string)
    requires Encodable(row, schema, runtime) && name in FieldNames(schema)
    ensures name in row && Encodes(row[name], TypeOf(schema, name), runtime)
  {
    if schema[0].name != name {
      EncodableAt(row, schema[1..], runtime, name);
    }
  }

  /** With distinct names, a row can be encoded exactly if each of its values can be. */
  lemma {:induction false} EncodableWhen(row: Row, schema: seq<ElixirField>, runtime: Runtime)
    requires HasNames(row, schema) && Distinct(FieldNames(schema))
    ensures Encodable(row, schema, runtime) <==>
            forall name :: name in FieldNames(schema) ==> Encodes(row[name], TypeOf(schema, name), runtime)
  {
    if schema != [] {
      var names := FieldNames(schema);
      assert names[1..] == FieldNames(schema[1..]);
      assert forall name :: name in names <==> name == names[0] || name in names[1..];
      assert names[0] !in names[1..];
      EncodableWhen(row, schema[1..], runtime);
      forall name | name in names[1..] ensures TypeOf(schema, name) == TypeOf(schema[1..], name) {
      }
    }
  }

  function Returned(v: Value, t: ElixirType, runtime: Runtime): Value
    requires Encodes(v, t, runtime)
  {
    DecodeValue(EncodeValue(v, t, runtime), t, runtime)
  }

  function ReturnedRow(row: Row, schema: seq<ElixirField>, runtime: Runtime): Row
    requires Encodable(row, schema, runtime)
  {
    map name | name in FieldNames(schema) ::
      EncodableAt(row, schema, runtime, name);
      Returned(row[name], TypeOf(schema, name), runtime)
  }

  lemma {:induction false} EncodedValueAt(row: Row, schema: seq<ElixirField>, runtime: Runtime, name: string)
    requires Encodable(row, schema, runtime) && name in FieldNames(schema)
    ensures name in row && Encodes(row[name], TypeOf(schema, name), runtime)
    ensures name in EncodeRow(row, schema, runtime)
    ensures EncodeRow(row, schema, runtime)[name] == EncodeValue(row[name], TypeOf(schema, name), runtime)
  {
    EncodeRowNames(row, schema, runtime);
    EncodableAt(row, schema, runtime, name);
    if schema[0].name != name {
      EncodedValueAt(row, schema[1..], runtime, name);
    }
  }

  lemma {:induction false} DecodedValueAt(b: Batch, i: nat, schema: seq<ElixirField>, runtime: Runtime)
    requires forall name :: name in FieldNames(schema) ==> name in b.columns && i < |b.columns[name]|
    ensures var row := DecodedRow(b, i, schema, runtime);
            && row.Keys == (set name | name in FieldNames(schema))
            && forall name :: name in FieldNames(schema) ==> row[name] == DecodeValue(b.columns[name][i],
                TypeOf(schema, name), runtime)
  {
    if schema != [] {
      DecodedValueAt(b, i, schema[1..], runtime);
      assert forall name :: name in FieldNames(schema) <==> name == schema[0].name || name in FieldNames(schema[1..]);
    }
  }

  /** Making one batch of encoded rows and decoding it returns each row through its types. */
  lemma BatchReturns(rows: seq<Row>, encoded: seq<Row>, schema: seq<ElixirField>, runtime: Runtime)
    requires schema != [] && |encoded| == |rows|
    requires forall i :: 0 <= i < |rows| ==> Encodable(rows[i], schema, runtime) &&
                                             encoded[i] == EncodeRow(rows[i], schema, runtime)
    ensures forall row :: row in encoded ==> HasNames(row, schema)
    ensures WellFormed(MakeBatch(encoded, schema))
    ensures DecodedRows(MakeBatch(encoded, schema), runtime)
         == seq(|rows|, i requires 0 <= i < |rows| => ReturnedRow(rows[i], schema, runtime))
  {
    forall i | 0 <= i < |rows| ensures HasNames(encoded[i], schema) {
      EncodeRowNames(rows[i], schema, runtime);
    }
    var b := MakeBatch(encoded, schema);
    forall i | 0 <= i < |rows|
      ensures DecodedRow(b, i, schema, runtime) == ReturnedRow(rows[i], schema, runtime)
    {
      DecodedValueAt(b, i, schema, runtime);
      forall name | name in FieldNames(schema)
        ensures name in rows[i] && Encodes(rows[i][name], TypeOf(schema, name), runtime)
        ensures b.columns[name][i] == EncodeValue(rows[i][name], TypeOf(schema, name), runtime)
      {
        EncodedValueAt(rows[i], schema, runtime, name);
      }
    }
  }

  function ReturnedRows(rows: seq<Row>, schema: seq<ElixirField>, runtime: Runtime): seq<Row>
    requires forall row :: row in rows ==> Encodable(row, schema, runtime)
  {
    seq(|rows|, i requires 0 <= i < |rows| => assert rows[i] in rows; ReturnedRow(rows[i], schema, runtime))
  }

  lemma {:induction false} ChunksReturn(rows: seq<Row>, encoded: seq<Row>, schema: seq<ElixirField>, n: nat,
      runtime: Runtime)
    requires schema != [] && n > 0 && |encoded| == |rows|
    requires forall row :: row in rows ==> Encodable(row, schema, runtime)
    requires forall row :: row in encoded ==> HasNames(row, schema)
    requires forall i :: 0 <= i < |rows| ==> rows[i] in rows && encoded[i] == EncodeRow(rows[i], schema, runtime)
    ensures forall chunk, row :: chunk in Chunk(encoded, n) && row in chunk ==> HasNames(row, schema)
    ensures var batches := MakeBatches(Chunk(encoded, n), schema);
            && (forall b :: b in batches ==> WellFormed(b))
            && DecodeRows(batches, runtime) == ReturnedRows(rows, schema, runtime)
    decreases |rows|
  {
    ChunksHold(encoded, n, schema);
    hide HasNames, Encodable, WellFormed, MakeBatch, DecodedRows, EncodeRow, ReturnedRow;
    if 0 < |encoded| <= n {
      BatchReturns(rows, encoded, schema, runtime);
      FirstBatch(encoded, [], schema, runtime);
      assert [encoded] + [] == [encoded];
    } else if n < |encoded| {
      var head, tail := encoded[..n], encoded[n..];
      BatchReturns(rows[..n], head, schema, runtime);
      assert forall i :: 0 <= i < |tail| ==> tail[i] == encoded[n + i] && rows[n..][i] == rows[n + i];
      ChunksReturn(rows[n..], tail, schema, n, runtime);
      FirstBatch(head, Chunk(tail, n), schema, runtime);
      ReturnedSplit(rows, n, schema, runtime);
    }
  }

  lemma ReturnedSplit(rows: seq<Row>, n: nat, schema: seq<ElixirField>, runtime: Runtime)
    requires n <= |rows| && forall row :: row in rows ==> Encodable(row, schema, runtime)
    ensures ReturnedRows(rows, schema, runtime)
         == ReturnedRows(rows[..n], schema, runtime) + ReturnedRows(rows[n..], schema, runtime)
  {
    hide Encodable, ReturnedRow;
    assert forall i :: 0 <= i < |rows| ==> rows[i] in rows;
  }

  lemma FirstBatch(head: seq<Row>, rest: seq<seq<Row>>, schema: seq<ElixirField>, runtime: Runtime)
    requires forall row :: row in head ==> HasNames(row, schema)
    requires forall chunk, row :: chunk in rest && row in chunk ==> HasNames(row, schema)
    requires WellFormed(MakeBatch(head, schema)) && forall b :: b in MakeBatches(rest, schema) ==> WellFormed(b)
    ensures var batches := MakeBatches([head] + rest, schema);
            && (forall b :: b in batches ==> WellFormed(b))
            && DecodeRows(batches, runtime)
            == DecodedRows(MakeBatch(head, schema), runtime) + DecodeRows(MakeBatches(rest, schema), runtime)
  {
    hide HasNames, WellFormed, MakeBatch, DecodedRows;
    assert ([head] + rest)[1..] == rest;
    var batches := [MakeBatch(head, schema)] + MakeBatches(rest, schema);
    assert batches[1..] == MakeBatches(rest, schema);
  }

  /** When a value comes back as it went in. */
  predicate Stable(v: Value, t: ElixirType, runtime: Runtime) {
    && !(v.Integer? && t.EFloat?)
    && (t.ETimestamp? && t.timezone == Some("UTC") ==>
          && (v.Integer? ==> !runtime.representable(FromUnix(v.n, t.unit)))
          && (v.DateTime? && !t.unit.Nanosecond? ==> v.micros % (1_000_000 / PerSecond(t.unit)) == 0)
          && (v.DateTime? ==> runtime.representable(v.micros)))
    && !(v.DateTime? && t.ETimestamp? && t.timezone != Some("UTC"))
  }

  lemma StableReturns(v: Value, t: ElixirType, runtime: Runtime)
    requires Encodes(v, t, runtime)
    ensures Stable(v, t, runtime) <==> Returned(v, t, runtime) == v
  {
    if v.DateTime? && t.ETimestamp? {
      match t.unit
      case Second => assert v.micros == v.micros / 1_000_000 * 1_000_000 + v.micros % 1_000_000;
      case Millisecond => assert v.micros == v.micros / 1_000 * 1_000 + v.micros % 1_000;
      case Microsecond =>
      case Nanosecond =>
    }
  }

  /**
   Rows are accepted if and only if the schema has no field twice and each row has no empty key, exactly the
   schema's fields, and no integer too large for a float column. Then they come back from their batches in
   order, for every batch size, each value through its type; so the rows themselves come back if and only if
   there is a column (or no row) and every value is stable. With no columns the row count is lost.
   */
  lemma RowsComeBack(rows: seq<Row>, schema: seq<ElixirField>, batchRows: nat, runtime: Runtime)
    requires batchRows > 0
    ensures Batches(rows, schema, batchRows, runtime).Some? <==>
              && Distinct(FieldNames(schema))
              && forall row :: row in rows ==>
                   && "" !in row && row.Keys == (set name | name in FieldNames(schema))
                   && forall name :: name in row ==> Encodes(row[name], TypeOf(schema, name), runtime)
    ensures Batches(rows, schema, batchRows, runtime).Some? ==>
              var batches := Batches(rows, schema, batchRows, runtime).value;
              && (forall row :: row in rows ==> Normal(row, schema, runtime))
              && (forall b :: b in batches ==> WellFormed(b))
              && (schema != [] || rows == [] ==>
                    DecodeRows(batches, runtime) == ReturnedRows(rows, schema, runtime))
              && (schema == [] ==> DecodeRows(batches, runtime) == [])
              && (DecodeRows(batches, runtime) == rows <==>
                    (schema != [] || rows == [])
                    && forall row, name :: row in rows && name in row ==>
                         Stable(row[name], TypeOf(schema, name), runtime))
  {
    forall row | row in rows && Distinct(FieldNames(schema))
      ensures Normal(row, schema, runtime) <==>
              && "" !in row && row.Keys == (set name | name in FieldNames(schema))
              && forall name :: name in row ==> Encodes(row[name], TypeOf(schema, name), runtime)
    {
      NormalWhen(row, schema, runtime);
    }
    AcceptedWhen(rows, schema, batchRows, runtime);
    hide Batches, Normal, Stable;
    if Batches(rows, schema, batchRows, runtime).Some? {
      AcceptedRowsComeBack(rows, schema, batchRows, runtime);
    }
  }

  lemma AcceptedWhen(rows: seq<Row>, schema: seq<ElixirField>, batchRows: nat, runtime: Runtime)
    requires batchRows > 0
    ensures Batches(rows, schema, batchRows, runtime).Some? <==>
            Distinct(FieldNames(schema)) && forall row :: row in rows ==> Normal(row, schema, runtime)
  {
    hide Encodable;
    if rows != [] {
      assert rows[0] in rows;
    }
  }

  lemma NormalWhen(row: Row, schema: seq<ElixirField>, runtime: Runtime)
    requires Distinct(FieldNames(schema))
    ensures Normal(row, schema, runtime) <==>
            && "" !in row && row.Keys == (set name | name in FieldNames(schema))
            && forall name :: name in row ==> Encodes(row[name], TypeOf(schema, name), runtime)
  {
    hide Encodable, Distinct, TypeOf, FieldNames, Encodes;
    if HasNames(row, schema) {
      EncodableWhen(row, schema, runtime);
    }
  }

  lemma AcceptedRowsComeBack(rows: seq<Row>, schema: seq<ElixirField>, batchRows: nat, runtime: Runtime)
    requires batchRows > 0 && Batches(rows, schema, batchRows, runtime).Some?
    ensures forall row :: row in rows ==> Normal(row, schema, runtime)
    ensures var batches := Batches(rows, schema, batchRows, runtime).value;
            && (forall b :: b in batches ==> WellFormed(b))
            && (schema != [] || rows == [] ==> DecodeRows(batches, runtime) == ReturnedRows(rows, schema, runtime))
            && (schema == [] ==> DecodeRows(batches, runtime) == [])
            && (DecodeRows(batches, runtime) == rows <==>
                  (schema != [] || rows == [])
                  && forall row, name :: row in rows && name in row ==>
                       Stable(row[name], TypeOf(schema, name), runtime))
  {
    var encoded := NormalizeRows(rows, schema, runtime).value;
    assert forall i :: 0 <= i < |rows| ==> rows[i] in rows;
    NormalizedNames(rows, schema, runtime);
    if rows == [] {
      EmptyBatch(schema, runtime);
    } else if schema == [] {
      NoColumns(Chunk(encoded, batchRows), runtime);
    } else {
      ChunksReturn(rows, encoded, schema, batchRows, runtime);
      ReturnedWhole(rows, schema, runtime);
    }
  }

  lemma EmptyBatch(schema: seq<ElixirField>, runtime: Runtime)
    ensures WellFormed(MakeBatch([], schema)) && DecodeRows([MakeBatch([], schema)], runtime) == []
  {
    assert [MakeBatch([], schema)][1..] == [];
  }

  lemma {:induction false} NoColumns(chunks: seq<seq<Row>>, runtime: Runtime)
    ensures var batches := MakeBatches(chunks, []);
            (forall b :: b in batches ==> WellFormed(b)) && DecodeRows(batches, runtime) == []
  {
    if chunks != [] {
      NoColumns(chunks[1..], runtime);
      assert MakeBatches(chunks, [])[1..] == MakeBatches(chunks[1..], []);
    }
  }

  lemma ReturnedWhole(rows: seq<Row>, schema: seq<ElixirField>, runtime: Runtime)
    requires forall row :: row in rows ==> RowMatches(row, schema) && Encodable(row, schema, runtime)
    requires forall row, name :: row in rows && name in row ==> name in FieldNames(schema)
    ensures ReturnedRows(rows, schema, runtime) == rows <==>
              forall row, name :: row in rows && name in row ==> Stable(row[name], TypeOf(schema, name), runtime)
  {
    hide Stable, Returned, TypeOf, Encodable, Encodes;
    var returned := ReturnedRows(rows, schema, runtime);
    forall i | 0 <= i < |rows|
      ensures returned[i] == rows[i] <==> forall name :: name in rows[i] ==>
          Stable(rows[i][name], TypeOf(schema, name), runtime)
    {
      var row := rows[i];
      assert row in rows;
      forall name | name in row
        ensures returned[i][name] == row[name] <==> Stable(row[name], TypeOf(schema, name), runtime)
      {
        EncodableAt(row, schema, runtime, name);
        StableReturns(row[name], TypeOf(schema, name), runtime);
      }
      if returned[i] != row {
        assert exists name :: name in row && returned[i][name] != row[name];
      }
    }
    if returned != rows {
      assert exists i :: 0 <= i < |rows| && returned[i] != rows[i];
    }
    assert forall i :: 0 <= i < |rows| ==> rows[i] in rows;
  }

  // ---------- Inference ----------

  datatype ValueKind = BooleanKind | IntegerKind | FloatKind | TextKind | BytesKind | DateTimeKind | UnsupportedKind

  /** `value_kind`, of a value that is not nil. */
  function KindOf(v: Value): ValueKind {
    match v
    case Boolean(_) => BooleanKind
    case Integer(_) => IntegerKind
    case Float(_) => FloatKind
    case Text(_) => TextKind
    case Bytes(_) => BytesKind
    case DateTime(_) => DateTimeKind
    case _ => UnsupportedKind
  }

  function Kinds(values: seq<Value>): set<ValueKind> {
    set v | v in values && !v.Nil? :: KindOf(v)
  }

  /** `infer_type`. */
  function InferType(values: seq<Value>): Option<ElixirType> {
    var kinds := Kinds(values);
    if kinds == {} then None
    else if kinds == {IntegerKind} then Some(EInteger(64, true))
    else if kinds <= {IntegerKind, FloatKind} then Some(EFloat(64))
    else if kinds == {BooleanKind} then Some(EBoolean)
    else if kinds == {TextKind} then Some(EUtf8)
    else if kinds == {BytesKind} then Some(EBinary)
    else if kinds == {DateTimeKind} then Some(ETimestamp(Microsecond, Some("UTC")))
    else None
  }

  function InferFields(names: seq<string>, rows: seq<Row>): Option<seq<ElixirField>>
    requires forall row, name :: row in rows && name in names ==> name in row
  {
    if names == [] then Some([])
    else
      var values := Column(rows, names[0]);
      var valueType, rest := InferType(values), InferFields(names[1..], rows);
      if valueType.None? || rest.None? then None
      else Some([ElixirField(names[0], valueType.value, Nil in values)] + rest.value)
  }

  ghost function AnyOrder(names: set<string>): (r: seq<string>)
    ensures multiset(r) == multiset(names)
  {
    if names == {} then []
    else
      var name :| name in names;
      [name] + AnyOrder(names - {name})
  }

  /** `consistent_names`: the names of the first row, sorted. */
  ghost function NamesOf(row: Row): seq<string> {
    Sort(AnyOrder(row.Keys))
  }

  lemma NamesOfRow(row: Row)
    ensures Distinct(NamesOf(row)) && forall name :: name in NamesOf(row) <==> name in row
  {
    var names := AnyOrder(row.Keys);
    assert forall name :: name in multiset(names) <==> name in row.Keys;
    assert forall name :: multiset(names)[name] <= 1;
    forall i, j | 0 <= i < j < |names| ensures names[i] != names[j] {
      TwiceCounts(names, i, j);
    }
    SortSorts(names);
    SortDistinct(names);
  }

  lemma TwiceCounts(names: seq<string>, i: nat, j: nat)
    requires i < j < |names|
    ensures names[i] == names[j] ==> multiset(names)[names[i]] >= 2
  {
    assert names == names[..j] + names[j..];
    assert names[..j][i] in multiset(names[..j]) && names[j..][0] in multiset(names[j..]);
  }

  /** `infer`. */
  ghost function Infer(rows: seq<Row>): Option<seq<ElixirField>> {
    if rows == [] || rows[0] == map[] ||
       (exists row :: row in rows && ("" in row || row.Keys != rows[0].Keys)) then None
    else
      NamesOfRow(rows[0]);
      InferFields(NamesOf(rows[0]), rows)
  }

  /** The native writer's conversion accepts the value for the field. */
  predicate Accepted(v: Value, f: ElixirField) {
    if v.Nil? then f.nullable
    else
      match f.valueType
      case EBoolean => v.Boolean?
      case EInteger(64, true) => v.Integer? && IsI64(v.n)
      case EFloat(64) => v.Float?
      case EUtf8 => v.Text?
      case EBinary => v.Text? || v.Bytes?
      case ETimestamp(_, _) => v.Integer? && IsI64(v.n)
      case _ => false
  }

  /** An integer of the column fits 64 bits, or can be widened in a column of floats; a date-time fits 64 bits. */
  predicate InRange(v: Value, t: ElixirType, runtime: Runtime) {
    && (v.Integer? && t.EInteger? ==> IsI64(v.n))
    && (v.Integer? && t.EFloat? ==> runtime.widen(v.n).Some?)
    && (v.DateTime? ==> IsI64(v.micros))
  }

  /** The value passes both conversions: encoding for its field, and the native writer's. */
  predicate Written(v: Value, f: ElixirField, runtime: Runtime) {
    Encodes(v, f.valueType, runtime) && Accepted(EncodeValue(v, f.valueType, runtime), f)
  }

  lemma InferredType(values: seq<Value>, v: Value, runtime: Runtime)
    requires InferType(values).Some? && v in values
    ensures var t := InferType(values).value;
            && (Written(v, ElixirField("", t, Nil in values), runtime) <==> InRange(v, t, runtime))
            && (v.Integer? ==> t == EInteger(64, true) || t == EFloat(64))
            && (v.Integer? ==> (t.EFloat? <==> exists other :: other in values && other.Float?))
            && (v.DateTime? ==> t == ETimestamp(Microsecond, Some("UTC")))
            && (t.ETimestamp? ==> t == ETimestamp(Microsecond, Some("UTC")) && (v.Nil? || v.DateTime?))
  {
    if !v.Nil? {
      assert KindOf(v) in Kinds(values);
      if v.Integer? && InferType(values).value.EFloat? {
        assert Kinds(values) != {IntegerKind};
        assert FloatKind in Kinds(values);
      }
      if other :| other in values && other.Float? {
        assert KindOf(other) in Kinds(values);
      }
    }
  }

  lemma {:induction false} InferredField(names: seq<string>, rows: seq<Row>, name: string)
    requires forall row, n :: row in rows && n in names ==> n in row
    requires InferFields(names, rows).Some?
    ensures FieldNames(InferFields(names, rows).value) == names
    ensures name in names ==>
              && InferType(Column(rows, name)).Some?
              && TypeOf(InferFields(names, rows).value, name) == InferType(Column(rows, name)).value
              && FieldOf(InferFields(names, rows).value, name) == ElixirField(name,
                  InferType(Column(rows, name)).value, Nil in Column(rows, name))
  {
    if names != [] {
      InferredField(names[1..], rows, name);
      var schema := InferFields(names, rows).value;
      assert schema[1..] == InferFields(names[1..], rows).value;
    }
  }

  function FieldOf(schema: seq<ElixirField>, name: string): ElixirField
    requires name in FieldNames(schema)
  {
    if schema[0].name == name then schema[0] else FieldOf(schema[1..], name)
  }

  /** The inferred schema's field for a column has the type inferred from the column's values. */
  lemma InferredColumn(rows: seq<Row>, row: Row, name: string)
    requires Infer(rows).Some? && row in rows && name in row
    ensures forall r :: r in rows ==> name in r
    ensures var schema, values := Infer(rows).value, Column(rows, name);
            && schema != [] && "" !in row && RowMatches(row, schema) && row[name] in values && InferType(values).Some?
            && name in FieldNames(schema) && TypeOf(schema, name) == InferType(values).value
            && FieldOf(schema, name) == ElixirField(name, InferType(values).value, Nil in values)
  {
    hide InferType;
    var names, schema := NamesOf(rows[0]), Infer(rows).value;
    NamesOfRow(rows[0]);
    assert row.Keys == rows[0].Keys;
    InferredField(names, rows, name);
    var values := Column(rows, name);
    var i :| 0 <= i < |rows| && rows[i] == row;
    assert values[i] == row[name];
  }

  /**
   Inference accepts rows only with a schema that they match, and then a value is written exactly if its
   integers and date-times are within 64 bits and its float column can hold it: an integer beyond 64 bits, or
   one too large for a float beside floats, passes inference and is refused later.
   */
  lemma InferredSchemaFits(rows: seq<Row>, row: Row, name: string, runtime: Runtime)
    requires Infer(rows).Some? && row in rows && name in row
    ensures var schema := Infer(rows).value;
            && schema != [] && "" !in row && RowMatches(row, schema)
            && (Written(row[name], FieldOf(schema, name), runtime) <==>
                InRange(row[name], TypeOf(schema, name), runtime))
  {
    InferredColumn(rows, row, name);
    hide Infer, InferType, Accepted, EncodeValue, InRange, Column, FieldNames, TypeOf, FieldOf;
    var schema, values := Infer(rows).value, Column(rows, name);
    InferredType(values, row[name], runtime);
    WrittenName(row[name], FieldOf(schema, name), ElixirField("", TypeOf(schema, name), Nil in values), runtime);
  }

  /** A row with one integer beyond 64 bits has an inferred schema, and the writer refuses the value. */
  lemma WideIntegerRefused()
    ensures var row: Row := map["n" := Integer(MAX_I64 + 1)];
            && Infer([row]) == Some([ElixirField("n", EInteger(64, true), false)])
            && forall runtime :: !Written(row["n"], ElixirField("n", EInteger(64, true), false), runtime)
  {
    var row: Row := map["n" := Integer(MAX_I64 + 1)];
    var values := [row["n"]];
    assert Kinds(values) == {IntegerKind} by {
      assert values[0] in values && KindOf(values[0]) in Kinds(values);
    }
    InferOne(row, "n");
  }

  lemma InferOne(row: Row, name: string)
    requires row.Keys == {name} && name != "" && InferType([row[name]]).Some?
    ensures Infer([row]) == Some([ElixirField(name, InferType([row[name]]).value, row[name].Nil?)])
  {
    var rows := [row];
    OnlyName(row, name);
    NamesOfRow(row);
    hide InferType, NamesOf;
    assert name in row.Keys;
    assert rows[0] == row && forall r :: r in rows ==> r == row;
    assert Column(rows, name) == [row[name]];
    assert Nil in [row[name]] <==> row[name].Nil?;
    assert [name][1..] == [];
    OnlyField(rows, name);
  }

  lemma OnlyField(rows: seq<Row>, name: string)
    requires forall row :: row in rows ==> name in row
    requires InferType(Column(rows, name)).Some?
    ensures InferFields([name], rows) ==
            Some([ElixirField(name, InferType(Column(rows, name)).value, Nil in Column(rows, name))])
  {
    hide InferType, Column;
    var names := [name];
    assert names[1..] == [];
    assert InferFields(names[1..], rows) == Some([]);
    var field := ElixirField(name, InferType(Column(rows, name)).value, Nil in Column(rows, name));
    assert [field] + [] == [field];
    assert InferFields(names, rows) == Some([field] + []);
  }

  lemma OnlyName(row: Row, name: string)
    requires row.Keys == {name}
    ensures NamesOf(row) == [name]
  {
    var names := NamesOf(row);
    assert multiset(names) == multiset(row.Keys) == multiset{name};
    assert |names| == |multiset(names)| == 1;
    assert names[0] in multiset(names);
  }

  lemma WrittenName(v: Value, f: ElixirField, g: ElixirField, runtime: Runtime)
    requires f.valueType == g.valueType && f.nullable == g.nullable
    ensures Written(v, f, runtime) <==> Written(v, g, runtime)
  {
  }

  const TWO_TO_THE_64: int := 0x1_0000_0000_0000_0000
  const TWO_TO_THE_256: int := TWO_TO_THE_64 * TWO_TO_THE_64 * TWO_TO_THE_64 * TWO_TO_THE_64
  const TWO_TO_THE_1024: int := TWO_TO_THE_256 * TWO_TO_THE_256 * TWO_TO_THE_256 * TWO_TO_THE_256

  /** Floats of 64 bits hold no integer from 2^1024 on. */
  predicate Doubles(runtime: Runtime) {
    runtime.widen(TWO_TO_THE_1024).None?
  }

  /** Beside a float, the integer 2^1024 is given a schema of floats, and then the rows are refused. */
  lemma HugeIntegerRefused(batchRows: nat, runtime: Runtime)
    requires batchRows > 0 && Doubles(runtime)
    ensures var rows: seq<Row> := [map["x" := Integer(TWO_TO_THE_1024)], map["x" := Float(0.5)]];
            var schema := [ElixirField("x", EFloat(64), false)];
            Infer(rows) == Some(schema) && Batches(rows, schema, batchRows, runtime) == None
  {
    hide TWO_TO_THE_1024;
    var a: Row, b: Row := map["x" := Integer(TWO_TO_THE_1024)], map["x" := Float(0.5)];
    MixedInferred(a, b, "x");
    var rows, schema := [a, b], [ElixirField("x", EFloat(64), false)];
    assert rows[0] == a && a in rows;
    assert !Encodable(a, schema, runtime);
    assert !Normal(a, schema, runtime);
  }

  lemma MixedInferred(a: Row, b: Row, name: string)
    requires a.Keys == b.Keys == {name} && name != "" && a[name].Integer? && b[name].Float?
    ensures Infer([a, b]) == Some([ElixirField(name, EFloat(64), false)])
  {
    var rows := [a, b];
    OnlyName(a, name);
    NamesOfRow(a);
    hide NamesOf;
    assert name in a.Keys && name in b.Keys;
    assert rows[0] == a && forall row :: row in rows ==> row == a || row == b;
    var values := [a[name], b[name]];
    assert Column(rows, name) == values;
    assert Kinds(values) == {IntegerKind, FloatKind} by {
      assert values[0] in values && values[1] in values;
      assert KindOf(values[0]) in Kinds(values) && KindOf(values[1]) in Kinds(values);
    }
    assert FloatKind in Kinds(values) && InferType(values) == Some(EFloat(64));
    assert Nil !in values;
    OnlyField(rows, name);
  }

  /** A row with an empty key is refused by inference, and for every schema. */
  lemma EmptyNameRefused(schema: seq<ElixirField>, batchRows: nat, runtime: Runtime)
    requires batchRows > 0
    ensures var row: Row := map["" := Integer(1)];
            Infer([row]) == None && Batches([row], schema, batchRows, runtime) == None
  {
    var rows: seq<Row> := [map["" := Integer(1)]];
    assert rows[0] in rows && "" in rows[0];
    assert !Normal(rows[0], schema, runtime);
  }

  /**
   Rows are accepted with their inferred schema if and only if every integer beside floats can be widened.
   Then they come back unchanged, for every batch size, if and only if no column mixes integers with floats,
   whose integers come back widened.
   */
  lemma InferredRowsComeBack(rows: seq<Row>, batchRows: nat, runtime: Runtime)
    requires batchRows > 0 && Infer(rows).Some?
    requires forall row: Row, name :: row in rows && name in row && row[name].DateTime? ==>
               runtime.representable(row[name].micros)
    ensures var batches := Batches(rows, Infer(rows).value, batchRows, runtime);
            && (batches.Some? <==>
                  forall row: Row, name :: row in rows && name in row && row[name].Integer? && HasFloat(rows, name) ==>
                    runtime.widen(row[name].n).Some?)
            && (batches.Some? ==>
                  && (forall b :: b in batches.value ==> WellFormed(b))
                  && (DecodeRows(batches.value, runtime) == rows <==>
                        forall row: Row, name :: row in rows && name in row ==>
                          !(row[name].Integer? && HasFloat(rows, name))))
  {
    var schema := Infer(rows).value;
    InferredRowsMatch(rows, schema);
    RowsComeBack(rows, schema, batchRows, runtime);
    hide Infer, Batches, DecodeRows, Stable, WellFormed, RowMatches, HasFloat, Encodes, Normal;
    forall row: Row, name | row in rows && name in row
      ensures name in FieldNames(schema)
      ensures Encodes(row[name], TypeOf(schema, name), runtime) <==>
              (row[name].Integer? && HasFloat(rows, name) ==> runtime.widen(row[name].n).Some?)
      ensures Stable(row[name], TypeOf(schema, name), runtime) <==> !(row[name].Integer? && HasFloat(rows, name))
    {
      InferredStable(rows, row, name, runtime);
    }
  }

  lemma InferredRowsMatch(rows: seq<Row>, schema: seq<ElixirField>)
    requires Infer(rows) == Some(schema)
    ensures schema != [] && Distinct(FieldNames(schema))
    ensures forall row :: row in rows ==> "" !in row && row.Keys == (set name | name in FieldNames(schema))
  {
    hide InferFields, NamesOf;
    forall row | row in rows
      ensures schema != [] && Distinct(FieldNames(schema)) && "" !in row
              && row.Keys == (set name | name in FieldNames(schema))
    {
      assert row.Keys == rows[0].Keys && rows[0].Keys != {};
      var name :| name in row.Keys;
      InferredColumn(rows, row, name);
    }
    assert rows[0] in rows;
  }

  /** The column holds a float. */
  ghost predicate HasFloat(rows: seq<Row>, name: string) {
    exists other: Row :: other in rows && name in other && other[name].Float?
  }

  lemma FloatInColumn(rows: seq<Row>, name: string)
    requires forall row :: row in rows ==> name in row
    ensures HasFloat(rows, name) <==> exists v :: v in Column(rows, name) && v.Float?
  {
    var values := Column(rows, name);
    if v :| v in values && v.Float? {
      var j :| 0 <= j < |rows| && values[j] == v;
      assert rows[j] in rows && rows[j][name].Float?;
    }
    if other: Row :| other in rows && name in other && other[name].Float? {
      var j :| 0 <= j < |rows| && rows[j] == other;
      assert values[j] in values;
    }
  }

  lemma InferredStable(rows: seq<Row>, row: Row, name: string, runtime: Runtime)
    requires Infer(rows).Some? && row in rows && name in row
    requires row[name].DateTime? ==> runtime.representable(row[name].micros)
    ensures name in FieldNames(Infer(rows).value)
    ensures Encodes(row[name], TypeOf(Infer(rows).value, name), runtime) <==>
            (row[name].Integer? && HasFloat(rows, name) ==> runtime.widen(row[name].n).Some?)
    ensures Stable(row[name], TypeOf(Infer(rows).value, name), runtime) <==>
        !(row[name].Integer? && HasFloat(rows, name))
  {
    InferredColumn(rows, row, name);
    hide Infer, InferType, HasFloat, Stable, Column, FieldNames, TypeOf, FieldOf;
    var schema, values := Infer(rows).value, Column(rows, name);
    InferredType(values, row[name], runtime);
    FloatInColumn(rows, name);
    StableUnder(row[name], TypeOf(schema, name), runtime);
  }

  lemma StableUnder(v: Value, t: ElixirType, runtime: Runtime)
    requires v.DateTime? ==> runtime.representable(v.micros) && t == ETimestamp(Microsecond, Some("UTC"))
    requires t.ETimestamp? ==> v.Nil? || v.DateTime?
    ensures Stable(v, t, runtime) <==> !(v.Integer? && t.EFloat?)
  {
  }
}
