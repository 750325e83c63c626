/**
 The query path of native/parquex_nif/src/reader.rs: row groups are skipped by their
 statistics, the predicate's column is read even when it is not requested, and the
 batches are masked and re-indexed.
 */
module ReaderQuery {
  import opened Text
  import opened Sequences
  import Listing

  // ---------- Schemas, files, statistics ----------

  datatype Cell = Null | Int(n: int) | Real(x: real) | Utf8(s: string) | Bool(b: bool)

  datatype Kind = Int32 | Int64 | OtherInteger | Float | String | Boolean | Other

  datatype Field = Field(name: string, kind: Kind)

  datatype Physical = PhysicalInt32 | PhysicalInt64 | PhysicalOther

  datatype Statistics = Statistics(
    physical: Physical,
    nullCount: Option<nat>,
    min: Option<int>,
    max: Option<int>,
    minExact: bool,
    maxExact: bool
  )

  type Record = seq<Cell>

  datatype RowGroup = RowGroup(rows: seq<Record>, statistics: seq<Option<Statistics>>)

  /** The schema's root fields, the root name of each leaf column, and the row groups. */
  datatype File = File(fields: seq<Field>, leaves: seq<string>, groups: seq<RowGroup>)

  predicate CellFits(cell: Cell, kind: Kind) {
    match kind
    case Int32 => cell.Null? || cell.Int?
    case Int64 => cell.Null? || cell.Int?
    case OtherInteger => cell.Null? || cell.Int?
    case Float => cell.Null? || cell.Real?
    case String => cell.Null? || cell.Utf8?
    case Boolean => cell.Null? || cell.Bool?
    case Other => true
  }

  predicate DistinctNames(fields: seq<Field>) {
    forall i, j :: 0 <= i < j < |fields| ==> fields[i].name != fields[j].name
  }

  /** Every row has a fitting cell per field; every row group has statistics, if any, per leaf. */
  predicate WellFormed(file: File) {
    && DistinctNames(file.fields)
    && forall g :: 0 <= g < |file.groups| ==>
         && |file.groups[g].statistics| == |file.leaves|
         && forall r :: 0 <= r < |file.groups[g].rows| ==>
              && |file.groups[g].rows[r]| == |file.fields|
              && forall i :: 0 <= i < |file.fields| ==> CellFits(file.groups[g].rows[r][i], file.fields[i].kind)
  }

  function NullsIn(rows: seq<Record>, root: nat): nat
    requires forall r :: 0 <= r < |rows| ==> root < |rows[r]|
  {
    if rows == [] then 0 else (if rows[0][root].Null? then 1 else 0) + NullsIn(rows[1..], root)
  }

  /** The statistics are true of the column: the null count, and the bounds that are marked exact. */
  predicate Sound(rows: seq<Record>, root: nat, s: Statistics)
    requires forall r :: 0 <= r < |rows| ==> root < |rows[r]|
  {
    && (s.nullCount.Some? ==> s.nullCount.value == NullsIn(rows, root))
    && (forall r :: 0 <= r < |rows| && rows[r][root].Int? ==>
          && (s.min.Some? && s.minExact ==> s.min.value <= rows[r][root].n)
          && (s.max.Some? && s.maxExact ==> rows[r][root].n <= s.max.value))
  }

  /** The statistics of the first leaf of every field are sound. */
  ghost predicate SoundStatistics(file: File)
    requires WellFormed(file)
  {
    forall g, i :: 0 <= g < |file.groups| && 0 <= i < |file.fields| ==>
      var leaf := FirstLeaf(file.leaves, file.fields[i].name);
      leaf.Some? && file.groups[g].statistics[leaf.value].Some? ==>
        Sound(file.groups[g].rows, i, file.groups[g].statistics[leaf.value].value)
  }

  // ---------- Predicates ----------

  datatype Operator = Gt | Gte | Lt | Lte | Eq

  datatype Literal = IntegerLiteral(n: int) | FloatLiteral(x: real) | Utf8Literal(s: string) | BooleanLiteral(b: bool)

  datatype Predicate = Predicate(column: string, operator: Operator, literal: Literal)

  datatype PruneKind = PruneInt32 | PruneInt64

  datatype Compiled = Compiled(
    column: string,
    rootIndex: nat,
    operator: Operator,
    literal: Literal,
    pruneKind: Option<PruneKind>
  )

  function FieldIndex(fields: seq<Field>, name: string): (r: Option<nat>)
    ensures r.Some? ==> r.value < |fields| && fields[r.value].name == name
    ensures r.None? ==> forall i :: 0 <= i < |fields| ==> fields[i].name != name
  {
    if fields == [] then None
    else if fields[0].name == name then Some(0)
    else
      var rest := FieldIndex(fields[1..], name);
      assert forall i :: 0 < i < |fields| ==> fields[i] == fields[1..][i - 1];
      if rest.Some? then Some(rest.value + 1) else None
  }

  function FirstLeaf(leaves: seq<string>, name: string): (r: Option<nat>)
    ensures r.Some? ==> r.value < |leaves|
  {
    if leaves == [] then None
    else if leaves[0] == name then Some(0)
    else
      var rest := FirstLeaf(leaves[1..], name);
      if rest.Some? then Some(rest.value + 1) else None
  }

  /** `compile_predicate`: the literal must suit the column, and only equality is defined on booleans. */
  function Compile(fields: seq<Field>, p: Predicate): (r: Option<Compiled>)
    ensures r.Some? ==> r.value.rootIndex < |fields| && fields[r.value.rootIndex].name == p.column
  {
    var root := FieldIndex(fields, p.column);
    if root.None? then None
    else
      var compiled := Compiled(p.column, root.value, p.operator, p.literal, None);
      match fields[root.value].kind
      case OtherInteger => if p.literal.IntegerLiteral? then Some(compiled) else None
      case Int32 => if p.literal.IntegerLiteral? then Some(compiled.(pruneKind := Some(PruneInt32))) else None
      case Int64 => if p.literal.IntegerLiteral? then Some(compiled.(pruneKind := Some(PruneInt64))) else None
      case Float => if p.literal.FloatLiteral? then Some(compiled) else None
      case String => if p.literal.Utf8Literal? then Some(compiled) else None
      case Boolean => if p.operator.Eq? && p.literal.BooleanLiteral? then Some(compiled) else None
      case Other => None
  }

  predicate CompareInt(value: int, literal: int, operator: Operator) {
    match operator
    case Gt => value > literal
    case Gte => value >= literal
    case Lt => value < literal
    case Lte => value <= literal
    case Eq => value == literal
  }

  predicate CompareReal(value: real, literal: real, operator: Operator) {
    match operator
    case Gt => value > literal
    case Gte => value >= literal
    case Lt => value < literal
    case Lte => value <= literal
    case Eq => value == literal
  }

  predicate CompareText(value: string, literal: string, operator: Operator) {
    match operator
    case Gt => value != literal && Listing.LessEq(literal, value)
    case Gte => Listing.LessEq(literal, value)
    case Lt => value != literal && Listing.LessEq(value, literal)
    case Lte => Listing.LessEq(value, literal)
    case Eq => value == literal
  }

  /** The mask of one cell: a null cell has no value, and filtering drops it. */
  function Mask(cell: Cell, c: Compiled): Option<bool> {
    match (cell, c.literal)
    case (Int(n), IntegerLiteral(l)) => Some(CompareInt(n, l, c.operator))
    case (Real(x), FloatLiteral(l)) => Some(CompareReal(x, l, c.operator))
    case (Utf8(s), Utf8Literal(l)) => Some(CompareText(s, l, c.operator))
    case (Bool(b), BooleanLiteral(l)) => Some(b == l)
    case _ => None
  }

  predicate Keeps(cell: Cell, c: Compiled) {
    Mask(cell, c) == Some(true)
  }

  // ---------- Pruning ----------

  /** `integer_statistics_skip`. */
  predicate StatisticsSkip(s: Statistics, literal: int, operator: Operator) {
    match operator
    case Gt => s.maxExact && s.max.Some? && s.max.value <= literal
    case Gte => s.maxExact && s.max.Some? && s.max.value < literal
    case Lt => s.minExact && s.min.Some? && s.min.value >= literal
    case Lte => s.minExact && s.min.Some? && s.min.value > literal
    case Eq => (s.minExact && s.min.Some? && s.min.value > literal) ||
               (s.maxExact && s.max.Some? && s.max.value < literal)
  }

  predicate Skips(group: RowGroup, leaf: nat, c: Compiled)
    requires leaf < |group.statistics|
  {
    var statistics := group.statistics[leaf];
    statistics.Some? &&
    var s := statistics.value;
    (s.nullCount == Some(|group.rows|) ||
     match (c.pruneKind, s.physical, c.literal)
     case (Some(PruneInt32), PhysicalInt32, IntegerLiteral(l)) => StatisticsSkip(s, l, c.operator)
     case (Some(PruneInt64), PhysicalInt64, IntegerLiteral(l)) => StatisticsSkip(s, l, c.operator)
     case _ => false)
  }

  /** `select_row_groups`. */
  function SelectGroups(file: File, c: Option<Compiled>): seq<RowGroup>
    requires WellFormed(file)
  {
    if c.None? || c.value.pruneKind.None? then file.groups
    else
      var leaf := FirstLeaf(file.leaves, c.value.column);
      if leaf.None? then file.groups
      else
        Filter((g: RowGroup) => |g.statistics| == |file.leaves| && !Skips(g, leaf.value, c.value), file.groups)
  }

  // ---------- Projection ----------

  function InsertIndex(i: nat, indices: seq<nat>): (r: seq<nat>)
    ensures |r| == |indices| + 1
    ensures forall k :: k in r <==> k == i || k in indices
  {
    if indices == [] then [i]
    else if i <= indices[0] then [i] + indices
    else [indices[0]] + InsertIndex(i, indices[1..])
  }

  /** `sort_unstable`. */
  function SortIndices(indices: seq<nat>): (r: seq<nat>)
    ensures |r| == |indices|
    ensures forall k :: k in r <==> k in indices
  {
    if indices == [] then [] else InsertIndex(indices[0], SortIndices(indices[1..]))
  }

  function NamedIndices(fields: seq<Field>, columns: seq<string>): (r: Option<seq<nat>>)
    ensures r.Some? ==> |r.value| == |columns|
    ensures r.Some? ==> forall i :: 0 <= i < |columns| ==>
                          r.value[i] < |fields| && fields[r.value[i]].name == columns[i]
  {
    if columns == [] then Some([])
    else
      var first, rest := FieldIndex(fields, columns[0]), NamedIndices(fields, columns[1..]);
      if first.None? || rest.None? then None else Some([first.value] + rest.value)
  }

  function AllIndices(count: nat): (r: seq<nat>)
    ensures |r| == count
    ensures forall i :: 0 <= i < count ==> r[i] == i
  {
    seq(count, i => i)
  }

  /** `projection_indices`: no columns means all of them; otherwise file order. */
  function ProjectionIndices(fields: seq<Field>, columns: seq<string>): Option<seq<nat>> {
    if columns == [] then Some(AllIndices(|fields|))
    else
      var indices := NamedIndices(fields, columns);
      if indices.None? then None else Some(SortIndices(indices.value))
  }

  function Position(indices: seq<nat>, index: nat): (r: nat)
    requires index in indices
    ensures r < |indices| && indices[r] == index
  {
    if indices[0] == index then 0 else 1 + Position(indices[1..], index)
  }

  datatype Indices = Indices(read: seq<nat>, output: seq<nat>, predicateColumn: nat)

  /** The requested columns, and the predicate's column if it is not among them, in file order. */
  function ReadIndices(requested: seq<nat>, c: Option<Compiled>): (read: seq<nat>)
    ensures forall i :: i in read <==> i in requested || (c.Some? && i == c.value.rootIndex)
  {
    if c.Some? && c.value.rootIndex !in requested then SortIndices(requested + [c.value.rootIndex]) else requested
  }

  /** The index set-up of `open_backend`: what is read, where the output and the predicate's column are in it. */
  function SetUp(fields: seq<Field>, columns: seq<string>, requested: seq<nat>, c: Option<Compiled>): Indices {
    var read := ReadIndices(requested, c);
    Indices(read,
            if columns == [] then AllIndices(|fields|)
            else seq(|requested|, j requires 0 <= j < |requested| => Position(read, requested[j])),
            if c.None? then 0 else if columns == [] then c.value.rootIndex else Position(read, c.value.rootIndex))
  }

  /** The cells at the given indices; the indices used are always within the row. */
  function Project(row: Record, indices: seq<nat>): (r: Record)
    ensures |r| == |indices|
    ensures forall i :: 0 <= i < |indices| && indices[i] < |row| ==> r[i] == row[indices[i]]
  {
    seq(|indices|, i requires 0 <= i < |indices| => if indices[i] < |row| then row[indices[i]] else Null)
  }

  function ProjectAll(rows: seq<Record>, indices: seq<nat>): seq<Record> {
    Map((row: Record) => Project(row, indices), rows)
  }

  predicate KeepsRow(row: Record, column: nat, c: Compiled) {
    column < |row| && Keeps(row[column], c)
  }

  function FilterRows(rows: seq<Record>, column: nat, c: Option<Compiled>): seq<Record> {
    if c.None? then rows else Filter((row: Record) => KeepsRow(row, column, c.value), rows)
  }

  /** `apply_predicate_and_projection`: mask, then re-index unless the columns are already right. */
  function Apply(batch: seq<Record>, c: Option<Compiled>, ix: Indices): seq<Record> {
    var kept := FilterRows(batch, ix.predicateColumn, c);
    if |ix.output| == |ix.read| && ix.output == AllIndices(|ix.read|) then kept
    else ProjectAll(kept, ix.output)
  }

  function GroupRows(groups: seq<RowGroup>): seq<Record> {
    if groups == [] then [] else groups[0].rows + GroupRows(groups[1..])
  }

  datatype Opened = Opened(requested: seq<nat>, compiled: Option<Compiled>, indices: Indices)

  /** `open_backend`: a missing column or an unsuitable predicate is refused. */
  function Open(file: File, columns: seq<string>, p: Option<Predicate>): Option<Opened> {
    var requested := ProjectionIndices(file.fields, columns);
    var compiled := if p.Some? then Compile(file.fields, p.value) else None;
    if requested.None? || (p.Some? && compiled.None?) then None
    else Some(Opened(requested.value, compiled, SetUp(file.fields, columns, requested.value, compiled)))
  }

  /** The decoded batches: the read columns of the selected row groups, in batches of bounded size. */
  function Decode(file: File, o: Opened, batchSize: nat): seq<seq<Record>>
    requires WellFormed(file) && batchSize > 0
  {
    Chunk(ProjectAll(GroupRows(SelectGroups(file, o.compiled)), o.indices.read), batchSize)
  }

  function Results(file: File, o: Opened, batchSize: nat): seq<seq<Record>>
    requires WellFormed(file) && batchSize > 0
  {
    Map((batch: seq<Record>) => Apply(batch, o.compiled, o.indices), Decode(file, o, batchSize))
  }

  /** The reference: filter every full row, then project it. */
  function NaiveScan(file: File, o: Opened): seq<Record> {
    var root := if o.compiled.Some? then o.compiled.value.rootIndex else 0;
    ProjectAll(FilterRows(GroupRows(file.groups), root, o.compiled), o.requested)
  }

  // ---------- Indices ----------

  predicate Increasing(indices: seq<nat>) {
    forall i, j :: 0 <= i < j < |indices| ==> indices[i] < indices[j]
  }

  lemma {:induction false} InsertIncreasing(i: nat, indices: seq<nat>)
    requires Increasing(indices) && i !in indices
    ensures Increasing(InsertIndex(i, indices))
  {
    if indices != [] && i > indices[0] {
      InsertIncreasing(i, indices[1..]);
      var tail := InsertIndex(i, indices[1..]);
      forall j | 0 <= j < |tail| ensures indices[0] < tail[j] {
        assert tail[j] in tail;
      }
    }
  }

  lemma {:induction false} SortIncreasing(indices: seq<nat>)
    requires Distinct(indices)
    ensures Increasing(SortIndices(indices))
  {
    if indices != [] {
      SortIncreasing(indices[1..]);
      assert indices[0] !in indices[1..];
      InsertIncreasing(indices[0], SortIndices(indices[1..]));
    }
  }

  /** The output is the requested columns in file order, each once. */
  lemma ProjectionInFileOrder(fields: seq<Field>, columns: seq<string>, i: nat)
    requires DistinctNames(fields) && Distinct(columns) && ProjectionIndices(fields, columns).Some?
    ensures var requested := ProjectionIndices(fields, columns).value;
            && Increasing(requested)
            && (i in requested <==> i < |fields| && (columns == [] || fields[i].name in columns))
  {
    if columns == [] {
      if i < |fields| {
        assert AllIndices(|fields|)[i] == i;
      }
    } else {
      var named := NamedIndices(fields, columns).value;
      SortIncreasing(named);
      if i < |fields| && fields[i].name in columns {
        var j :| 0 <= j < |columns| && columns[j] == fields[i].name;
        assert fields[named[j]].name == fields[i].name;
        assert named[j] == i;
      }
      if i in named {
        var j :| 0 <= j < |named| && named[j] == i;
        assert columns[j] in columns;
      }
    }
  }

  /** The set-up finds every requested column, and the predicate's column, in what is read. */
  lemma SetUpFinds(fields: seq<Field>, columns: seq<string>, requested: seq<nat>, c: Option<Compiled>)
    requires DistinctNames(fields) && Distinct(columns) && ProjectionIndices(fields, columns) == Some(requested)
    requires c.Some? ==> c.value.rootIndex < |fields|
    ensures var ix := SetUp(fields, columns, requested, c);
            && (forall i :: 0 <= i < |ix.read| ==> ix.read[i] < |fields|)
            && |ix.output| == |requested|
            && (forall j :: 0 <= j < |requested| ==> ix.output[j] < |ix.read| && ix.read[ix.output[j]] == requested[j])
            && (c.Some? ==> ix.predicateColumn < |ix.read| && ix.read[ix.predicateColumn] == c.value.rootIndex)
  {
    hide ReadIndices, DistinctNames, Distinct;
    var ix := SetUp(fields, columns, requested, c);
    forall i | 0 <= i < |ix.read| ensures ix.read[i] < |fields| {
      assert ix.read[i] in ix.read;
      ProjectionInFileOrder(fields, columns, ix.read[i]);
    }
    if columns == [] {
      if c.Some? {
        ProjectionInFileOrder(fields, columns, c.value.rootIndex);
      }
      ReadsAll(requested, c);
    }
  }

  lemma ReadsAll(requested: seq<nat>, c: Option<Compiled>)
    requires c.Some? ==> c.value.rootIndex in requested
    ensures ReadIndices(requested, c) == requested
  {
  }

  // ---------- Rows ----------

  /** Masking and re-indexing what was read gives the requested cells of the rows that match. */
  lemma {:induction false} ApplyRead(fields: seq<Field>, columns: seq<string>, o: Opened, rows: seq<Record>)
    requires DistinctNames(fields) && Distinct(columns) && ProjectionIndices(fields, columns) == Some(o.requested)
    requires o.compiled.Some? ==> o.compiled.value.rootIndex < |fields|
    requires o.indices == SetUp(fields, columns, o.requested, o.compiled)
    requires forall r :: 0 <= r < |rows| ==> |rows[r]| == |fields|
    ensures Apply(ProjectAll(rows, o.indices.read), o.compiled, o.indices) ==
            ProjectAll(FilterRows(rows, if o.compiled.Some? then o.compiled.value.rootIndex else 0, o.compiled),
                       o.requested)
  {
    if rows != [] {
      ApplyRead(fields, columns, o, rows[1..]);
      var read := (row: Record) => Project(row, o.indices.read);
      assert rows == [rows[0]] + rows[1..];
      ApplyAppend([read(rows[0])], ProjectAll(rows[1..], o.indices.read), o.compiled, o.indices);
      ScanAppend([rows[0]], rows[1..], o);
      ApplyOne(fields, columns, o, rows[0]);
      assert ProjectAll(rows, o.indices.read) == [read(rows[0])] + ProjectAll(rows[1..], o.indices.read);
    }
  }

  lemma ApplyAppend(a: seq<Record>, b: seq<Record>, c: Option<Compiled>, ix: Indices)
    ensures Apply(a + b, c, ix) == Apply(a, c, ix) + Apply(b, c, ix)
  {
    FilterRowsAppend(a, b, ix.predicateColumn, c);
    MapAppend((row: Record) => Project(row, ix.output), FilterRows(a, ix.predicateColumn, c),
              FilterRows(b, ix.predicateColumn, c));
  }

  lemma FilterRowsAppend(a: seq<Record>, b: seq<Record>, column: nat, c: Option<Compiled>)
    ensures FilterRows(a + b, column, c) == FilterRows(a, column, c) + FilterRows(b, column, c)
  {
    if c.Some? {
      FilterAppend((row: Record) => KeepsRow(row, column, c.value), a, b);
    }
  }

  lemma ScanAppend(a: seq<Record>, b: seq<Record>, o: Opened)
    ensures var root := if o.compiled.Some? then o.compiled.value.rootIndex else 0;
            ProjectAll(FilterRows(a + b, root, o.compiled), o.requested) ==
            ProjectAll(FilterRows(a, root, o.compiled), o.requested) + ProjectAll(FilterRows(b, root, o.compiled),
                o.requested)
  {
    var root := if o.compiled.Some? then o.compiled.value.rootIndex else 0;
    FilterRowsAppend(a, b, root, o.compiled);
    MapAppend((row: Record) => Project(row, o.requested), FilterRows(a, root, o.compiled),
              FilterRows(b, root, o.compiled));
  }

  lemma FilterOneRow(row: Record, column: nat, c: Option<Compiled>)
    ensures FilterRows([row], column, c) == if c.Some? && !KeepsRow(row, column, c.value) then [] else [row]
  {
    if c.Some? {
      FilterOne((r: Record) => KeepsRow(r, column, c.value), row);
    }
  }

  lemma ApplyOne(fields: seq<Field>, columns: seq<string>, o: Opened, row: Record)
    requires DistinctNames(fields) && Distinct(columns) && ProjectionIndices(fields, columns) == Some(o.requested)
    requires o.compiled.Some? ==> o.compiled.value.rootIndex < |fields|
    requires o.indices == SetUp(fields, columns, o.requested, o.compiled)
    requires |row| == |fields|
    ensures Apply([Project(row, o.indices.read)], o.compiled, o.indices) ==
            ProjectAll(FilterRows([row], if o.compiled.Some? then o.compiled.value.rootIndex else 0, o.compiled),
                o.requested)
  {
    hide SetUp, ProjectionIndices, Keeps;
    SetUpFinds(fields, columns, o.requested, o.compiled);
    var ix, small := o.indices, Project(row, o.indices.read);
    var root := if o.compiled.Some? then o.compiled.value.rootIndex else 0;
    FilterOneRow(small, ix.predicateColumn, o.compiled);
    FilterOneRow(row, root, o.compiled);
    assert Project(small, ix.output) == Project(row, o.requested);
    assert |ix.output| == |ix.read| && ix.output == AllIndices(|ix.read|) ==> small == Project(small, ix.output);
  }

  lemma {:induction false} ApplyBatches(batches: seq<seq<Record>>, c: Option<Compiled>, ix: Indices)
    ensures Flatten(Map((batch: seq<Record>) => Apply(batch, c, ix), batches)) == Apply(Flatten(batches), c, ix)
  {
    if batches == [] {
      assert Apply([], c, ix) == [];
    } else {
      ApplyBatches(batches[1..], c, ix);
      ApplyAppend(batches[0], Flatten(batches[1..]), c, ix);
    }
  }

  // ---------- Skipped row groups ----------

  /** A skipped row group has no row that the predicate keeps. */
  lemma SkippedKeepsNothing(rows: seq<Record>, root: nat, s: Statistics, c: Compiled, l: int)
    requires forall r :: 0 <= r < |rows| ==> root < |rows[r]|
    requires Sound(rows, root, s) && c.literal == IntegerLiteral(l)
    requires s.nullCount == Some(|rows|) || StatisticsSkip(s, l, c.operator)
    ensures forall r :: 0 <= r < |rows| ==> !KeepsRow(rows[r], root, c)
  {
    forall r | 0 <= r < |rows| ensures !KeepsRow(rows[r], root, c) {
      if s.nullCount == Some(|rows|) {
        AllNull(rows, root, r);
      }
    }
  }

  lemma {:induction false} NullsBounded(rows: seq<Record>, root: nat)
    requires forall r :: 0 <= r < |rows| ==> root < |rows[r]|
    ensures NullsIn(rows, root) <= |rows|
  {
    if rows != [] {
      NullsBounded(rows[1..], root);
    }
  }

  lemma {:induction false} AllNull(rows: seq<Record>, root: nat, r: nat)
    requires r < |rows| && forall k :: 0 <= k < |rows| ==> root < |rows[k]|
    requires NullsIn(rows, root) == |rows|
    ensures rows[r][root].Null?
  {
    NullsBounded(rows[1..], root);
    if r > 0 {
      AllNull(rows[1..], root, r - 1);
    }
  }

  lemma {:induction false} SelectedRows(file: File, groups: seq<RowGroup>, c: Compiled, leaf: nat)
    requires forall g :: 0 <= g < |groups| ==> |groups[g].statistics| == |file.leaves|
    requires leaf < |file.leaves|
    requires forall g :: 0 <= g < |groups| && Skips(groups[g], leaf, c) ==>
               forall r :: 0 <= r < |groups[g].rows| ==> !KeepsRow(groups[g].rows[r], c.rootIndex, c)
    ensures var selected := Filter((g: RowGroup) => |g.statistics| == |file.leaves| && !Skips(g, leaf, c), groups);
            FilterRows(GroupRows(selected), c.rootIndex, Some(c)) == FilterRows(GroupRows(groups), c.rootIndex, Some(c))
  {
    hide Skips, KeepsRow;
    if groups != [] {
      SelectedRows(file, groups[1..], c, leaf);
      var keep := (g: RowGroup) => |g.statistics| == |file.leaves| && !Skips(g, leaf, c);
      var selected := Filter(keep, groups[1..]);
      FilterRowsAppend(groups[0].rows, GroupRows(groups[1..]), c.rootIndex, Some(c));
      if keep(groups[0]) {
        FilterRowsAppend(groups[0].rows, GroupRows(selected), c.rootIndex, Some(c));
        assert Filter(keep, groups) == [groups[0]] + selected;
        assert GroupRows([groups[0]] + selected) == groups[0].rows + GroupRows(selected);
      } else {
        FilterNone((row: Record) => KeepsRow(row, c.rootIndex, c), groups[0].rows);
        assert Filter(keep, groups) == [] + selected == selected;
        assert [] + FilterRows(GroupRows(groups[1..]), c.rootIndex, Some(c)) ==
               FilterRows(GroupRows(groups[1..]), c.rootIndex, Some(c));
      }
    }
  }

  /** Skipping row groups changes nothing of what the predicate keeps. */
  lemma PruningIsSafe(file: File, p: Predicate, c: Compiled)
    requires WellFormed(file) && SoundStatistics(file) && Compile(file.fields, p) == Some(c)
    ensures FilterRows(GroupRows(SelectGroups(file, Some(c))), c.rootIndex, Some(c)) ==
            FilterRows(GroupRows(file.groups), c.rootIndex, Some(c))
  {
    hide FilterRows, GroupRows, Sound, KeepsRow, StatisticsSkip;
    var leaf := FirstLeaf(file.leaves, c.column);
    if c.pruneKind.Some? && leaf.Some? {
      forall g | 0 <= g < |file.groups| && Skips(file.groups[g], leaf.value, c)
        ensures forall r :: 0 <= r < |file.groups[g].rows| ==> !KeepsRow(file.groups[g].rows[r], c.rootIndex, c)
      {
        assert Sound(file.groups[g].rows, c.rootIndex, file.groups[g].statistics[leaf.value].value);
        SkippedKeepsNothing(file.groups[g].rows, c.rootIndex, file.groups[g].statistics[leaf.value].value, c,
                            c.literal.n);
      }
      SelectedRows(file, file.groups, c, leaf.value);
    }
  }

  /**
   The fast path agrees with the reference: skipping row groups, reading one extra
   column, masking batch by batch and re-indexing return the same rows, with the same
   cells in file order, as filtering every full row and projecting it.
   */
  lemma QueryEqualsNaiveScan(file: File, columns: seq<string>, p: Option<Predicate>, batchSize: nat)
    requires WellFormed(file) && SoundStatistics(file) && Distinct(columns) && batchSize > 0
    requires Open(file, columns, p).Some?
    ensures var o := Open(file, columns, p).value;
            Flatten(Results(file, o, batchSize)) == NaiveScan(file, o)
  {
    hide Apply, SetUp, SelectGroups, FilterRows, ProjectionIndices, SoundStatistics, Compile;
    var o := Open(file, columns, p).value;
    var rows := GroupRows(SelectGroups(file, o.compiled));
    SelectedWidth(file, o.compiled);
    ApplyBatches(Decode(file, o, batchSize), o.compiled, o.indices);
    ApplyRead(file.fields, columns, o, rows);
    if o.compiled.Some? {
      PruningIsSafe(file, p.value, o.compiled.value);
    } else {
      assert SelectGroups(file, None) == file.groups by { AllGroups(file); }
    }
  }

  lemma AllGroups(file: File)
    requires WellFormed(file)
    ensures SelectGroups(file, None) == file.groups
  {
  }

  lemma SelectedWidth(file: File, c: Option<Compiled>)
    requires WellFormed(file)
    ensures forall r :: 0 <= r < |GroupRows(SelectGroups(file, c))| ==>
              |GroupRows(SelectGroups(file, c))[r]| == |file.fields|
  {
    var selected := SelectGroups(file, c);
    forall g | 0 <= g < |selected| ensures forall r :: 0 <= r < |selected[g].rows| ==>
        |selected[g].rows[r]| == |file.fields| {
      assert selected[g] in selected;
      assert selected[g] in file.groups;
    }
    GroupWidth(selected, |file.fields|);
  }

  lemma {:induction false} GroupWidth(groups: seq<RowGroup>, width: nat)
    requires forall g :: 0 <= g < |groups| ==> forall r :: 0 <= r < |groups[g].rows| ==> |groups[g].rows[r]| == width
    ensures forall r :: 0 <= r < |GroupRows(groups)| ==> |GroupRows(groups)[r]| == width
  {
    if groups != [] {
      GroupWidth(groups[1..], width);
    }
  }
}
