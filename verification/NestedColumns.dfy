/**
 Nested columns: the recursive builders of native/parquex_nif/src/writer.rs and the
 recursive reader of native/parquex_nif/src/reader.rs, as functions on column values.
 The scalar conversions are a parameter.
 */
module NestedColumns {
  import opened Text
  import opened SchemaTypes

  /** A value on the Elixir side of the boundary. */
  datatype Term =
    | Nil
    | Scalar(text: string)
    | ListTerm(items: seq<Term>)
    | MapTerm(entries: map<string, Term>)

  /** The scalar conversions: `decode` gives `None` when the term does not decode as the type. */
  datatype Codec = Codec(decode: (DataType, string) -> Option<string>, encode: (DataType, string) -> string)

  /** A column under construction, or a finished one. */
  datatype Column =
    | LeafColumn(slots: seq<Option<string>>)
    | ListColumn(validity: seq<bool>, offsets: seq<nat>, child: Column)
    | FixedColumn(validity: seq<bool>, child: Column)
    | StructColumn(validity: seq<bool>, children: seq<Column>)

  predicate IsList(t: DataType) {
    t.List? || t.LargeList?
  }

  predicate IsNested(t: DataType) {
    IsList(t) || t.FixedSizeList? || t.Struct?
  }

  /** The scalar types that have a builder. */
  predicate BuildableLeaf(t: DataType) {
    && (t.Time32? ==> t.unit.Second? || t.unit.Millisecond?)
    && (t.Time64? ==> t.unit.Microsecond? || t.unit.Nanosecond?)
  }

  /** The types that have a builder, at every level. */
  predicate Buildable(t: DataType)
    decreases t
  {
    if IsList(t) then Buildable(t.item.dataType)
    else if t.FixedSizeList? then 0 <= t.length && Buildable(t.item.dataType)
    else if t.Struct? then AllBuildable(t.fields)
    else BuildableLeaf(t)
  }

  predicate AllBuildable(fields: seq<Field>)
    decreases fields
  {
    fields == [] || (Buildable(fields[0].dataType) && AllBuildable(fields[1..]))
  }

  function Len(c: Column): nat {
    if c.LeafColumn? then |c.slots| else |c.validity|
  }

  // ---------- Building ----------

  /** `make_builder`. */
  function Empty(t: DataType): Column
    decreases t
  {
    if IsList(t) then ListColumn([], [0], Empty(t.item.dataType))
    else if t.FixedSizeList? then FixedColumn([], Empty(t.item.dataType))
    else if t.Struct? then StructColumn([], EmptyFields(t.fields))
    else LeafColumn([])
  }

  function EmptyFields(fields: seq<Field>): seq<Column>
    decreases fields
  {
    if fields == [] then [] else [Empty(fields[0].dataType)] + EmptyFields(fields[1..])
  }

  /** A list builder's `append`: the entry ends where the child ends now. */
  function PushList(c: Column, child: Column, valid: bool): Column
    requires c.ListColumn?
  {
    ListColumn(c.validity + [valid], c.offsets + [Len(child)], child)
  }

  /** `append_null`: a null slot, padded below where the layout needs it. */
  function AppendNull(t: DataType, c: Column): Option<Column>
    decreases t, 0, 0
  {
    if IsList(t) then if c.ListColumn? then Some(PushList(c, c.child, false)) else None
    else if t.FixedSizeList? then AppendFixedNull(t.item, t.length, c)
    else if t.Struct? then AppendStructNull(t.fields, c)
    else if c.LeafColumn? && BuildableLeaf(t) then Some(LeafColumn(c.slots + [None]))
    else None
  }

  function AppendFixedNull(item: Field, length: int, c: Column): Option<Column>
    decreases item, 0, 0
  {
    if !c.FixedColumn? then None
    else
      var child := AppendNulls(item.dataType, c.child, if length < 0 then 0 else length);
      if child.None? then None else Some(FixedColumn(c.validity + [false], child.value))
  }

  function AppendNulls(t: DataType, c: Column, count: nat): Option<Column>
    decreases t, 1, count
  {
    if count == 0 then Some(c)
    else
      var next := AppendNull(t, c);
      if next.None? then None else AppendNulls(t, next.value, count - 1)
  }

  function AppendStructNull(fields: seq<Field>, c: Column): Option<Column>
    decreases fields, 1, 0
  {
    if !c.StructColumn? then None
    else
      var children := AppendNullFields(fields, c.children);
      if children.None? then None else Some(StructColumn(c.validity + [false], children.value))
  }

  function AppendNullFields(fields: seq<Field>, children: seq<Column>): Option<seq<Column>>
    decreases fields, 0, 0
  {
    if fields == [] || children == [] then Some(children)
    else
      var first, rest := AppendNull(fields[0].dataType, children[0]), AppendNullFields(fields[1..], children[1..]);
      if first.None? || rest.None? then None else Some([first.value] + rest.value)
  }

  /** `append_value`. */
  function AppendValue(codec: Codec, t: DataType, nullable: bool, c: Column, term: Term): Option<Column>
    decreases t, 0, 0
  {
    if term.Nil? && !nullable then None
    else if IsList(t) then AppendList(codec, t.item, c, term)
    else if t.FixedSizeList? then AppendFixed(codec, t.item, t.length, c, term)
    else if t.Struct? then AppendStruct(codec, t.fields, c, term)
    else AppendLeaf(codec, t, c, term)
  }

  function AppendLeaf(codec: Codec, t: DataType, c: Column, term: Term): Option<Column> {
    if !c.LeafColumn? || !BuildableLeaf(t) then None
    else if term.Nil? then Some(LeafColumn(c.slots + [None]))
    else if t.Null? || !term.Scalar? then None
    else
      var value := codec.decode(t, term.text);
      if value.None? then None else Some(LeafColumn(c.slots + [value]))
  }

  /** `list_value`. */
  function AppendList(codec: Codec, item: Field, c: Column, term: Term): Option<Column>
    decreases item, 0, 0
  {
    if !c.ListColumn? then None
    else if term.Nil? then Some(PushList(c, c.child, false))
    else if !term.ListTerm? then None
    else
      var child := AppendAll(codec, item.dataType, item.nullable, c.child, term.items);
      if child.None? then None else Some(PushList(c, child.value, true))
  }

  /** `fixed_list_value`. */
  function AppendFixed(codec: Codec, item: Field, length: int, c: Column, term: Term): Option<Column>
    decreases item, 1, 0
  {
    if term.Nil? then AppendFixedNull(item, length, c)
    else if !c.FixedColumn? || !term.ListTerm? || |term.items| != length then None
    else
      var child := AppendAll(codec, item.dataType, item.nullable, c.child, term.items);
      if child.None? then None else Some(FixedColumn(c.validity + [true], child.value))
  }

  function AppendAll(codec: Codec, t: DataType, nullable: bool, c: Column, terms: seq<Term>): Option<Column>
    decreases t, 1, |terms|
  {
    if terms == [] then Some(c)
    else
      var next := AppendValue(codec, t, nullable, c, terms[0]);
      if next.None? then None else AppendAll(codec, t, nullable, next.value, terms[1..])
  }

  /** `struct_value`. */
  function AppendStruct(codec: Codec, fields: seq<Field>, c: Column, term: Term): Option<Column>
    decreases fields, 2, 0
  {
    if term.Nil? then AppendStructNull(fields, c)
    else if !c.StructColumn? then None
    else
      var children := AppendFields(codec, fields, c.children, term);
      if children.None? then None else Some(StructColumn(c.validity + [true], children.value))
  }

  function AppendFields(codec: Codec, fields: seq<Field>, children: seq<Column>, term: Term): Option<seq<Column>>
    decreases fields, 0, 0
  {
    if fields == [] || children == [] then Some(children)
    else if !term.MapTerm? || fields[0].name !in term.entries then None
    else
      var f := fields[0];
      var first := AppendValue(codec, f.dataType, f.nullable, children[0], term.entries[f.name]);
      var rest := AppendFields(codec, fields[1..], children[1..], term);
      if first.None? || rest.None? then None else Some([first.value] + rest.value)
  }

  /** `build_array`. */
  function Build(codec: Codec, field: Field, terms: seq<Term>): Option<Column> {
    AppendAll(codec, field.dataType, field.nullable, Empty(field.dataType), terms)
  }

  // ---------- The layout invariant ----------

  predicate Monotone(offsets: seq<nat>) {
    forall i, j :: 0 <= i <= j < |offsets| ==> offsets[i] <= offsets[j]
  }

  /**
   The column has the layout of its type, at every level: offsets rise from zero to the
   child's length, a fixed list's child has `length` slots for each entry, and a struct's
   children are as long as the struct.
   */
  predicate Shaped(t: DataType, c: Column)
    decreases t, 0
  {
    if IsList(t) then ListShaped(c) && Shaped(t.item.dataType, c.child)
    else if t.FixedSizeList? then
      c.FixedColumn? && Len(c.child) == |c.validity| * t.length && Shaped(t.item.dataType, c.child)
    else if t.Struct? then c.StructColumn? && FieldsShaped(t.fields, c.children, |c.validity|)
    else c.LeafColumn? && (t.Null? ==> forall i :: 0 <= i < |c.slots| ==> c.slots[i].None?)
  }

  predicate ListShaped(c: Column) {
    && c.ListColumn?
    && |c.offsets| == |c.validity| + 1 && c.offsets[0] == 0 && Monotone(c.offsets)
    && c.offsets[|c.validity|] == Len(c.child)
  }

  predicate FieldsShaped(fields: seq<Field>, children: seq<Column>, length: nat)
    decreases fields, 0
  {
    && |children| == |fields|
    && (fields == []
        || (&& Shaped(fields[0].dataType, children[0]) && Len(children[0]) == length
            && FieldsShaped(fields[1..], children[1..], length)))
  }

  // ---------- Reading ----------

  /** `is_null`. */
  predicate NullAt(c: Column, i: nat)
    requires i < Len(c)
  {
    if c.LeafColumn? then c.slots[i].None? else !c.validity[i]
  }

  /** `encode_value`. */
  function ReadValue(codec: Codec, t: DataType, c: Column, i: nat): Term
    requires Shaped(t, c) && i < Len(c)
    decreases t, 0, 0
  {
    if NullAt(c, i) || t.Null? then Nil
    else if IsList(t) then ListTerm(ReadRange(codec, t.item.dataType, c.child, c.offsets[i], c.offsets[i + 1]))
    else if t.FixedSizeList? then
      FixedWindow(i, t.length, |c.validity|);
      ListTerm(ReadRange(codec, t.item.dataType, c.child, i * t.length, (i + 1) * t.length))
    else if t.Struct? then MapTerm(ReadFields(codec, t.fields, c.children, |c.validity|, i, map[]))
    else Scalar(codec.encode(t, c.slots[i].value))
  }

  /** `encode_array`, on a slice. */
  function ReadRange(codec: Codec, t: DataType, c: Column, low: nat, high: nat): seq<Term>
    requires Shaped(t, c) && low <= high <= Len(c)
    decreases t, 1, high - low
  {
    if low == high then [] else [ReadValue(codec, t, c, low)] + ReadRange(codec, t, c, low + 1, high)
  }

  function ReadFields(codec: Codec, fields: seq<Field>, children: seq<Column>, length: nat, i: nat, m: map<string,
      Term>): map<string, Term>
    requires FieldsShaped(fields, children, length) && i < length
    decreases fields, 0, 0
  {
    if fields == [] then m
    else
      ReadFields(codec, fields[1..], children[1..], length, i,
          m[fields[0].name := ReadValue(codec, fields[0].dataType, children[0], i)])
  }

  lemma FixedWindow(i: nat, length: int, count: nat)
    requires i < count && 0 <= count * length
    ensures 0 <= i * length <= (i + 1) * length <= count * length
  {
    if length < 0 {
      assert false;
    }
    assert (count - i - 1) * length == count * length - (i + 1) * length;
  }

  // ---------- What the columns hold ----------

  /** The value that a term stands for once its scalars went through the codec: maps keep the fields of the type. */
  function Normalize(codec: Codec, t: DataType, term: Term): Term
    decreases t, 0, 0
  {
    if term.Nil? then Nil
    else if IsList(t) || t.FixedSizeList? then NormalizeList(codec, t.item.dataType, term)
    else if t.Struct? then MapTerm(NormalizeFields(codec, t.fields, term, map[]))
    else if term.Scalar? && codec.decode(t, term.text).Some? then
      Scalar(codec.encode(t, codec.decode(t, term.text).value))
    else term
  }

  function NormalizeList(codec: Codec, t: DataType, term: Term): Term
    decreases t, 2, 0
  {
    if term.ListTerm? then ListTerm(NormalizeAll(codec, t, term.items)) else term
  }

  function NormalizeAll(codec: Codec, t: DataType, terms: seq<Term>): seq<Term>
    decreases t, 1, |terms|
  {
    if terms == [] then [] else [Normalize(codec, t, terms[0])] + NormalizeAll(codec, t, terms[1..])
  }

  function NormalizeFields(codec: Codec, fields: seq<Field>, term: Term, m: map<string, Term>): map<string, Term>
    decreases fields, 0, 0
  {
    if fields == [] || !term.MapTerm? || fields[0].name !in term.entries then m
    else
      NormalizeFields(codec, fields[1..], term,
          m[fields[0].name := Normalize(codec, fields[0].dataType, term.entries[fields[0].name])])
  }

  /** The term is a value of the type. */
  predicate Conforms(codec: Codec, t: DataType, nullable: bool, term: Term)
    decreases t, 0, 0
  {
    if term.Nil? then nullable
    else if IsList(t) then term.ListTerm? && AllConform(codec, t.item.dataType, t.item.nullable, term.items)
    else if t.FixedSizeList? then
      term.ListTerm? && |term.items| == t.length && AllConform(codec, t.item.dataType, t.item.nullable, term.items)
    else if t.Struct? then FieldsConform(codec, t.fields, term)
    else !t.Null? && term.Scalar? && codec.decode(t, term.text).Some?
  }

  predicate AllConform(codec: Codec, t: DataType, nullable: bool, terms: seq<Term>)
    decreases t, 1, |terms|
  {
    terms == [] || (Conforms(codec, t, nullable, terms[0]) && AllConform(codec, t, nullable, terms[1..]))
  }

  /** Each field is present with a conforming value; further entries are ignored. */
  predicate FieldsConform(codec: Codec, fields: seq<Field>, term: Term)
    decreases fields, 0, 0
  {
    fields == []
    || (&& term.MapTerm? && fields[0].name in term.entries
        && Conforms(codec, fields[0].dataType, fields[0].nullable, term.entries[fields[0].name])
        && FieldsConform(codec, fields[1..], term))
  }

  /** `encode_array`, on a whole column. */
  function Values(codec: Codec, t: DataType, c: Column): seq<Term>
    requires Shaped(t, c)
  {
    ReadRange(codec, t, c, 0, Len(c))
  }

  lemma {:induction false} ReadRangeAt(codec: Codec, t: DataType, c: Column, low: nat, high: nat)
    requires Shaped(t, c) && low <= high <= Len(c)
    ensures |ReadRange(codec, t, c, low, high)| == high - low
    ensures forall k :: 0 <= k < high - low ==> ReadRange(codec, t, c, low, high)[k] == ReadValue(codec, t, c, low + k)
    decreases high - low
  {
    if low < high {
      ReadRangeAt(codec, t, c, low + 1, high);
      hide ReadValue, Shaped;
      var rest := ReadRange(codec, t, c, low + 1, high);
      assert forall k :: 0 < k < high - low ==> ReadRange(codec, t, c, low, high)[k] == rest[k - 1];
    }
  }

  /** A slice of a column reads as the slice of its values. */
  lemma SliceOfValues(codec: Codec, t: DataType, c: Column, low: nat, high: nat)
    requires Shaped(t, c) && low <= high <= Len(c)
    ensures |Values(codec, t, c)| == Len(c)
    ensures ReadRange(codec, t, c, low, high) == Values(codec, t, c)[low..high]
  {
    hide ReadValue, ReadRange, Shaped;
    ReadRangeAt(codec, t, c, low, high);
    ReadRangeAt(codec, t, c, 0, Len(c));
  }

  lemma ValuesGrow(codec: Codec, t: DataType, c: Column, d: Column)
    requires Shaped(t, c) && Shaped(t, d) && Len(d) == Len(c) + 1
    requires forall i :: 0 <= i < Len(c) ==> ReadValue(codec, t, d, i) == ReadValue(codec, t, c, i)
    ensures Values(codec, t, d) == Values(codec, t, c) + [ReadValue(codec, t, d, Len(c))]
  {
    ReadRangeAt(codec, t, c, 0, Len(c));
    ReadRangeAt(codec, t, d, 0, Len(d));
    hide ReadValue, ReadRange, Shaped;
  }

  predicate Gains(codec: Codec, t: DataType, c: Column, d: Column, value: Term) {
    && Shaped(t, c) && Shaped(t, d) && Len(d) == Len(c) + 1
    && Values(codec, t, d) == Values(codec, t, c) + [value]
  }

  // ---------- Growing one level ----------

  lemma LeafGains(codec: Codec, t: DataType, c: Column, slot: Option<string>)
    requires !IsNested(t) && Shaped(t, c) && (t.Null? ==> slot.None?)
    ensures Gains(codec, t, c, LeafColumn(c.slots + [slot]),
                  if slot.None? then Nil else Scalar(codec.encode(t, slot.value)))
  {
    var d := LeafColumn(c.slots + [slot]);
    assert Shaped(t, d);
    ValuesGrow(codec, t, c, d);
  }

  lemma PushListShaped(t: DataType, c: Column, child: Column, valid: bool)
    requires IsList(t) && Shaped(t, c) && Shaped(t.item.dataType, child) && Len(c.child) <= Len(child)
    ensures Shaped(t, PushList(c, child, valid))
  {
    var d := PushList(c, child, valid);
    assert forall i :: 0 <= i <= |c.validity| ==> d.offsets[i] == c.offsets[i] <= c.offsets[|c.validity|];
  }

  /** A list entry reads as its window of the child's values. */
  lemma ReadListEntry(codec: Codec, t: DataType, c: Column, i: nat)
    requires IsList(t) && Shaped(t, c) && i < |c.validity|
    ensures c.offsets[i] <= c.offsets[i + 1] <= |Values(codec, t.item.dataType, c.child)|
    ensures ReadValue(codec, t, c, i)
         == if c.validity[i] then ListTerm(Values(codec, t.item.dataType, c.child)[c.offsets[i]..c.offsets[i + 1]])
            else Nil
  {
    assert ListShaped(c);
    assert c.offsets[i] <= c.offsets[i + 1] <= c.offsets[|c.validity|];
    SliceOfValues(codec, t.item.dataType, c.child, c.offsets[i], c.offsets[i + 1]);
    hide Values, ReadRange;
  }

  lemma ListGains(codec: Codec, t: DataType, c: Column, child: Column, valid: bool)
    requires IsList(t) && Shaped(t, c) && Shaped(t.item.dataType, child)
    requires Values(codec, t.item.dataType, c.child) <= Values(codec, t.item.dataType, child)
    ensures Len(c.child) <= |Values(codec, t.item.dataType, child)|
    ensures Gains(codec, t, c, PushList(c, child, valid),
                  if valid then ListTerm(Values(codec, t.item.dataType, child)[Len(c.child)..]) else Nil)
  {
    var item, n, d := t.item.dataType, |c.validity|, PushList(c, child, valid);
    assert ListShaped(c) && Shaped(item, c.child);
    SliceOfValues(codec, item, c.child, 0, 0);
    SliceOfValues(codec, item, child, 0, 0);
    PushListShaped(t, c, child, valid);
    hide Values, ReadRange, ReadValue, Shaped, ListShaped;
    forall i | 0 <= i < n ensures ReadValue(codec, t, d, i) == ReadValue(codec, t, c, i) {
      ListEntryKept(codec, t, c, child, valid, i);
    }
    ReadListEntry(codec, t, d, n);
    assert Values(codec, item, child)[Len(c.child)..Len(child)] == Values(codec, item, child)[Len(c.child)..];
    ValuesGrow(codec, t, c, d);
  }

  lemma ListEntryKept(codec: Codec, t: DataType, c: Column, child: Column, valid: bool, i: nat)
    requires IsList(t) && Shaped(t, c) && Shaped(t.item.dataType, child) && Shaped(t, PushList(c, child, valid))
    requires Values(codec, t.item.dataType, c.child) <= Values(codec, t.item.dataType, child)
    requires i < |c.validity|
    ensures ReadValue(codec, t, PushList(c, child, valid), i) == ReadValue(codec, t, c, i)
  {
    hide Values, ReadValue;
    ReadListEntry(codec, t, c, i);
    ReadListEntry(codec, t, PushList(c, child, valid), i);
    hide Shaped;
  }

  /** A fixed list's entry reads as its window of the child's values. */
  lemma ReadFixedEntry(codec: Codec, t: DataType, c: Column, i: nat)
    requires t.FixedSizeList? && Shaped(t, c) && i < |c.validity|
    ensures 0 <= i * t.length <= (i + 1) * t.length <= |Values(codec, t.item.dataType, c.child)|
    ensures ReadValue(codec, t, c, i)
         == if c.validity[i] then ListTerm(Values(codec, t.item.dataType, c.child)[i * t.length..(i + 1) * t.length])
             else Nil
  {
    FixedWindow(i, t.length, |c.validity|);
    SliceOfValues(codec, t.item.dataType, c.child, i * t.length, (i + 1) * t.length);
    hide Values, ReadRange;
  }

  lemma PushFixedShaped(t: DataType, c: Column, child: Column, valid: bool)
    requires t.FixedSizeList? && Shaped(t, c) && Shaped(t.item.dataType, child) && Len(child) == Len(c.child) + t.length
    ensures Shaped(t, FixedColumn(c.validity + [valid], child))
    ensures Len(c.child) == |c.validity| * t.length && Len(child) == (|c.validity| + 1) * t.length
  {
    var n := |c.validity|;
    assert (n + 1) * t.length == n * t.length + t.length;
  }

  lemma FixedGains(codec: Codec, t: DataType, c: Column, child: Column, valid: bool)
    requires t.FixedSizeList? && Shaped(t, c) && Shaped(t.item.dataType, child)
    requires Values(codec, t.item.dataType, c.child) <= Values(codec, t.item.dataType, child)
    requires Len(child) == Len(c.child) + t.length
    ensures Len(c.child) <= |Values(codec, t.item.dataType, child)|
    ensures Gains(codec, t, c, FixedColumn(c.validity + [valid], child),
                  if valid then ListTerm(Values(codec, t.item.dataType, child)[Len(c.child)..]) else Nil)
  {
    var item, n, d := t.item.dataType, |c.validity|, FixedColumn(c.validity + [valid], child);
    SliceOfValues(codec, item, c.child, 0, 0);
    SliceOfValues(codec, item, child, 0, 0);
    PushFixedShaped(t, c, child, valid);
    hide Values, ReadRange, ReadValue, Shaped;
    forall i | 0 <= i < n ensures ReadValue(codec, t, d, i) == ReadValue(codec, t, c, i) {
      FixedEntryKept(codec, t, c, d, i);
    }
    ReadFixedEntry(codec, t, d, n);
    assert Values(codec, item, child)[n * t.length..(n + 1) * t.length] == Values(codec, item, child)[Len(c.child)..];
    ValuesGrow(codec, t, c, d);
  }

  lemma FixedEntryKept(codec: Codec, t: DataType, c: Column, d: Column, i: nat)
    requires t.FixedSizeList? && Shaped(t, c) && Shaped(t, d) && i < |c.validity| < |d.validity|
             && c.validity <= d.validity
    requires Values(codec, t.item.dataType, c.child) <= Values(codec, t.item.dataType, d.child)
    ensures ReadValue(codec, t, d, i) == ReadValue(codec, t, c, i)
  {
    hide Values, ReadValue;
    ReadFixedEntry(codec, t, c, i);
    ReadFixedEntry(codec, t, d, i);
    hide Shaped;
  }

  // Struct children grow side by side.

  predicate FieldsGrown(codec: Codec, fields: seq<Field>, before: seq<Column>, after: seq<Column>, length: nat)
    requires FieldsShaped(fields, before, length) && FieldsShaped(fields, after, length + 1)
  {
    fields == []
    || (&& Values(codec, fields[0].dataType, before[0]) <= Values(codec, fields[0].dataType, after[0])
        && FieldsGrown(codec, fields[1..], before[1..], after[1..], length))
  }

  lemma {:induction false} ReadFieldsKept(codec: Codec, fields: seq<Field>, before: seq<Column>, after: seq<Column>,
      length: nat, i: nat, m: map<string, Term>)
    requires FieldsShaped(fields, before, length) && FieldsShaped(fields, after, length + 1)
    requires FieldsGrown(codec, fields, before, after, length) && i < length
    ensures ReadFields(codec, fields, after, length + 1, i, m) == ReadFields(codec, fields, before, length, i, m)
    decreases fields
  {
    if fields != [] {
      var t := fields[0].dataType;
      ReadRangeAt(codec, t, before[0], 0, length);
      ReadRangeAt(codec, t, after[0], 0, length + 1);
      assert Values(codec, t, before[0])[i] == Values(codec, t, after[0])[i];
      hide ReadValue, Shaped;
      ReadFieldsKept(codec, fields[1..], before[1..], after[1..], length, i,
          m[fields[0].name := ReadValue(codec, t, before[0], i)]);
    }
  }

  lemma StructGains(codec: Codec, t: DataType, c: Column, children: seq<Column>, valid: bool)
    requires t.Struct? && Shaped(t, c) && FieldsShaped(t.fields, children, |c.validity| + 1)
    requires FieldsGrown(codec, t.fields, c.children, children, |c.validity|)
    ensures Gains(codec, t, c, StructColumn(c.validity + [valid], children),
                  if valid then MapTerm(ReadFields(codec, t.fields, children, |c.validity| + 1, |c.validity|, map[]))
                      else Nil)
  {
    var n, d := |c.validity|, StructColumn(c.validity + [valid], children);
    assert Shaped(t, d);
    forall i | 0 <= i < n ensures ReadValue(codec, t, d, i) == ReadValue(codec, t, c, i) {
      ReadFieldsKept(codec, t.fields, c.children, children, n, i, map[]);
      hide FieldsGrown, FieldsShaped, ReadFields;
    }
    ValuesGrow(codec, t, c, d);
    hide FieldsGrown, FieldsShaped, ReadFields;
  }

  // ---------- Null padding ----------

  lemma {:induction false} AppendNullGains(codec: Codec, t: DataType, c: Column)
    requires Buildable(t) && Shaped(t, c)
    ensures AppendNull(t, c).Some? && Gains(codec, t, c, AppendNull(t, c).value, Nil)
    decreases t, 0, 0
  {
    if IsList(t) {
      ListGains(codec, t, c, c.child, false);
    } else if t.FixedSizeList? {
      AppendNullsGain(codec, t.item.dataType, c.child, t.length);
      FixedGains(codec, t, c, AppendNulls(t.item.dataType, c.child, t.length).value, false);
    } else if t.Struct? {
      AppendNullFieldsGain(codec, t.fields, c.children, |c.validity|);
      StructGains(codec, t, c, AppendNullFields(t.fields, c.children).value, false);
    } else {
      LeafGains(codec, t, c, None);
    }
  }

  lemma {:induction false} AppendNullsGain(codec: Codec, t: DataType, c: Column, count: nat)
    requires Buildable(t) && Shaped(t, c)
    ensures AppendNulls(t, c, count).Some?
    ensures var d := AppendNulls(t, c, count).value;
            Shaped(t, d) && Len(d) == Len(c) + count && Values(codec, t, c) <= Values(codec, t, d)
    decreases t, 1, count
  {
    if count > 0 {
      AppendNullGains(codec, t, c);
      AppendNullsGain(codec, t, AppendNull(t, c).value, count - 1);
      hide AppendNull, Shaped, Buildable, Values;
    }
  }

  lemma {:induction false} AppendNullFieldsGain(codec: Codec, fields: seq<Field>, children: seq<Column>, length: nat)
    requires AllBuildable(fields) && FieldsShaped(fields, children, length)
    ensures AppendNullFields(fields, children).Some?
    ensures var d := AppendNullFields(fields, children).value;
            FieldsShaped(fields, d, length + 1) && FieldsGrown(codec, fields, children, d, length)
    decreases fields, 0, 0
  {
    if fields != [] {
      AppendNullGains(codec, fields[0].dataType, children[0]);
      AppendNullFieldsGain(codec, fields[1..], children[1..], length);
      hide AppendNull, Shaped, Buildable, Values;
      var d := AppendNullFields(fields, children).value;
      assert d[1..] == AppendNullFields(fields[1..], children[1..]).value;
    }
  }

  // ---------- Values ----------

  lemma {:induction false} AppendValueGains(codec: Codec, t: DataType, nullable: bool, c: Column, term: Term)
    requires Buildable(t) && Shaped(t, c)
    ensures AppendValue(codec, t, nullable, c, term).Some? <==> Conforms(codec, t, nullable, term)
    ensures AppendValue(codec, t, nullable, c, term).Some? ==>
              Gains(codec, t, c, AppendValue(codec, t, nullable, c, term).value, Normalize(codec, t, term))
    decreases t, 0, 0
  {
    if term.Nil? {
      AppendNullGains(codec, t, c);
      NullValue(codec, t, nullable, c);
    } else if IsList(t) {
      ListValueGains(codec, t, nullable, c, term);
    } else if t.FixedSizeList? {
      FixedValueGains(codec, t, nullable, c, term);
    } else if t.Struct? {
      StructValueGains(codec, t, nullable, c, term);
    } else {
      var value := if term.Scalar? then codec.decode(t, term.text) else None;
      if value.Some? && !t.Null? {
        LeafGains(codec, t, c, value);
      }
      hide Gains;
    }
  }

  /** A nil value is padding. */
  lemma NullValue(codec: Codec, t: DataType, nullable: bool, c: Column)
    requires Buildable(t) && Shaped(t, c)
    ensures AppendValue(codec, t, nullable, c, Nil) == if nullable then AppendNull(t, c) else None
  {
  }

  lemma {:induction false} ListValueGains(codec: Codec, t: DataType, nullable: bool, c: Column, term: Term)
    requires Buildable(t) && Shaped(t, c) && IsList(t) && !term.Nil?
    ensures AppendValue(codec, t, nullable, c, term).Some? <==> Conforms(codec, t, nullable, term)
    ensures AppendValue(codec, t, nullable, c, term).Some? ==>
              Gains(codec, t, c, AppendValue(codec, t, nullable, c, term).value, Normalize(codec, t, term))
    decreases t.item, 2, 0
  {
    if term.ListTerm? {
      AppendAllGains(codec, t.item.dataType, t.item.nullable, c.child, term.items);
      var child := AppendAll(codec, t.item.dataType, t.item.nullable, c.child, term.items);
      if child.Some? {
        ListGains(codec, t, c, child.value, true);
        SliceOfValues(codec, t.item.dataType, c.child, 0, 0);
      }
    }
    hide Gains, AppendAll, Values, Shaped, Buildable, AllConform, NormalizeAll;
  }

  lemma {:induction false} FixedValueGains(codec: Codec, t: DataType, nullable: bool, c: Column, term: Term)
    requires Buildable(t) && Shaped(t, c) && t.FixedSizeList? && !term.Nil?
    ensures AppendValue(codec, t, nullable, c, term).Some? <==> Conforms(codec, t, nullable, term)
    ensures AppendValue(codec, t, nullable, c, term).Some? ==>
              Gains(codec, t, c, AppendValue(codec, t, nullable, c, term).value, Normalize(codec, t, term))
    decreases t.item, 2, 0
  {
    if term.ListTerm? && |term.items| == t.length {
      AppendAllGains(codec, t.item.dataType, t.item.nullable, c.child, term.items);
      var child := AppendAll(codec, t.item.dataType, t.item.nullable, c.child, term.items);
      if child.Some? {
        FixedGains(codec, t, c, child.value, true);
        SliceOfValues(codec, t.item.dataType, c.child, 0, 0);
      }
    }
    hide Gains, AppendAll, Values, Shaped, Buildable, AllConform, NormalizeAll;
  }

  lemma {:induction false} AppendAllGains(codec: Codec, t: DataType, nullable: bool, c: Column, terms: seq<Term>)
    requires Buildable(t) && Shaped(t, c)
    ensures AppendAll(codec, t, nullable, c, terms).Some? <==> AllConform(codec, t, nullable, terms)
    ensures var d := AppendAll(codec, t, nullable, c, terms);
            d.Some? ==>
              && Shaped(t, d.value) && Len(d.value) == Len(c) + |terms|
              && Values(codec, t, d.value) == Values(codec, t, c) + NormalizeAll(codec, t, terms)
    decreases t, 1, |terms|
  {
    if terms != [] {
      AppendValueGains(codec, t, nullable, c, terms[0]);
      AppendAllUnfolds(codec, t, nullable, c, terms);
      var next := AppendValue(codec, t, nullable, c, terms[0]);
      hide AppendAll, AllConform, NormalizeAll, AppendValue, Conforms, Normalize, Shaped, Values, Buildable;
      if next.Some? {
        AppendAllGains(codec, t, nullable, next.value, terms[1..]);
        var rest := NormalizeAll(codec, t, terms[1..]);
        assert Values(codec, t, next.value) + rest == Values(codec, t, c) + ([Normalize(codec, t, terms[0])] + rest);
      }
    }
  }

  lemma AppendAllUnfolds(codec: Codec, t: DataType, nullable: bool, c: Column, terms: seq<Term>)
    requires terms != []
    ensures var next := AppendValue(codec, t, nullable, c, terms[0]);
            AppendAll(codec, t, nullable, c, terms) == if next.None? then None
                else AppendAll(codec, t, nullable, next.value, terms[1..])
    ensures AllConform(codec, t, nullable, terms) <==>
              Conforms(codec, t, nullable, terms[0]) && AllConform(codec, t, nullable, terms[1..])
    ensures NormalizeAll(codec, t, terms) == [Normalize(codec, t, terms[0])] + NormalizeAll(codec, t, terms[1..])
  {
    hide AppendValue, Conforms, Normalize;
  }

  lemma {:induction false} StructValueGains(codec: Codec, t: DataType, nullable: bool, c: Column, term: Term)
    requires Buildable(t) && Shaped(t, c) && t.Struct? && !term.Nil?
    ensures AppendValue(codec, t, nullable, c, term).Some? <==> Conforms(codec, t, nullable, term)
    ensures AppendValue(codec, t, nullable, c, term).Some? ==>
              Gains(codec, t, c, AppendValue(codec, t, nullable, c, term).value, Normalize(codec, t, term))
    decreases t.fields, 1, 0
  {
    AppendFieldsGain(codec, t.fields, c.children, |c.validity|, term, map[]);
    var children := AppendFields(codec, t.fields, c.children, term);
    if children.Some? {
      StructGains(codec, t, c, children.value, true);
    }
    hide Gains, AppendFields, FieldsShaped, FieldsConform, NormalizeFields, FieldsGrown, AllBuildable;
  }

  lemma {:induction false} AppendFieldsGain(codec: Codec, fields: seq<Field>, children: seq<Column>, length: nat,
      term: Term, m: map<string, Term>)
    requires AllBuildable(fields) && FieldsShaped(fields, children, length)
    ensures AppendFields(codec, fields, children, term).Some? <==> FieldsConform(codec, fields, term)
    ensures var d := AppendFields(codec, fields, children, term);
            d.Some? ==>
              && FieldsShaped(fields, d.value, length + 1) && FieldsGrown(codec, fields, children, d.value, length)
              && ReadFields(codec, fields, d.value, length + 1, length, m) == NormalizeFields(codec, fields, term, m)
    decreases fields, 0, 0
  {
    if fields != [] && term.MapTerm? && fields[0].name in term.entries {
      var f, value := fields[0], term.entries[fields[0].name];
      AppendValueGains(codec, f.dataType, f.nullable, children[0], value);
      AppendFieldsGain(codec, fields[1..], children[1..], length, term,
                       m[f.name := Normalize(codec, f.dataType, value)]);
      var first := AppendValue(codec, f.dataType, f.nullable, children[0], value);
      var d := AppendFields(codec, fields, children, term);
      if d.Some? {
        assert d.value[1..] == AppendFields(codec, fields[1..], children[1..], term).value;
        ReadRangeAt(codec, f.dataType, first.value, 0, length + 1);
        ReadRangeAt(codec, f.dataType, children[0], 0, length);
        assert ReadValue(codec, f.dataType, first.value, length) == Values(codec, f.dataType, first.value)[length];
      }
      hide AppendValue, Conforms, Normalize, Shaped, Values, Buildable, ReadValue, AppendFields;
    }
  }

  // ---------- Whole columns ----------

  lemma LeafDescriptorBuilds(d: Descriptor)
    requires !d.kind.KList? && !d.kind.KLargeList? && !d.kind.KFixedList? && !d.kind.KStruct?
    requires ToArrow(d).Some?
    ensures Buildable(ToArrow(d).value)
  {
    hide ToArrowField, ToArrowFields, AllBuildable;
  }

  lemma LeafBuilds(t: ElixirType)
    requires Supported(t) && !Nested(t)
    ensures ToArrow(EncodeType(t)).Some? && Buildable(ToArrow(EncodeType(t)).value)
  {
    Kept(t);
    hide ToArrow, FromArrow, EncodeField, EncodeFields, Buildable, Supported;
    LeafDescriptorBuilds(EncodeType(t));
  }

  lemma ListBuilds(t: ElixirType)
    requires t.EList? || t.ELargeList? || t.EFixedList?
    requires ToArrow(EncodeType(t.item.valueType)).Some? && Buildable(ToArrow(EncodeType(t.item.valueType)).value)
    requires t.EFixedList? ==> 0 <= t.length
    ensures ToArrow(EncodeType(t)).Some? && Buildable(ToArrow(EncodeType(t)).value)
  {
    hide IntegerType, DecimalType, TimeType, EncodeFields, ToArrowFields, AllBuildable, BuildableLeaf;
    var d, item := EncodeType(t), EncodeField(t.item);
    assert d.children == [item] && ToArrowField(item).Some?;
    hide EncodeType, EncodeField, ToArrowField;
  }

  /** Every type that the writer accepts from a supported Elixir type has builders at every level. */
  lemma {:induction false} SupportedBuilds(t: ElixirType)
    requires Supported(t)
    ensures ToArrow(EncodeType(t)).Some? && Buildable(ToArrow(EncodeType(t)).value)
    decreases t
  {
    if t.EStruct? {
      AllSupportedBuild(t.fields);
      hide EncodeField, ToArrowField, EncodeFields, ToArrowFields, AllBuildable, BuildableLeaf, IntegerType,
          DecimalType, TimeType;
    } else if Nested(t) {
      SupportedBuilds(t.item.valueType);
      ListBuilds(t);
    } else {
      LeafBuilds(t);
    }
  }

  lemma {:induction false} AllSupportedBuild(fields: seq<ElixirField>)
    requires AllSupported(fields)
    ensures ToArrowFields(EncodeFields(fields)).Some? && AllBuildable(ToArrowFields(EncodeFields(fields)).value)
    decreases fields
  {
    if fields != [] {
      SupportedBuilds(fields[0].valueType);
      AllSupportedBuild(fields[1..]);
      hide EncodeType, ToArrow, Buildable, Supported;
      var ds := EncodeFields(fields);
      assert ds[0] == EncodeField(fields[0]) && ds[1..] == EncodeFields(fields[1..]);
      var first, rest := ToArrowField(ds[0]), ToArrowFields(ds[1..]);
      var all := ToArrowFields(ds);
      assert all == Some([first.value] + rest.value);
      assert all.value[0] == first.value && all.value[1..] == rest.value;
    }
  }

  lemma {:induction false} EmptyShaped(t: DataType)
    requires Buildable(t)
    ensures Shaped(t, Empty(t)) && Len(Empty(t)) == 0
    decreases t
  {
    if t.Struct? {
      EmptyFieldsShaped(t.fields);
    } else if IsNested(t) {
      EmptyShaped(t.item.dataType);
    }
  }

  lemma {:induction false} EmptyFieldsShaped(fields: seq<Field>)
    requires AllBuildable(fields)
    ensures FieldsShaped(fields, EmptyFields(fields), 0)
    decreases fields
  {
    if fields != [] {
      EmptyShaped(fields[0].dataType);
      EmptyFieldsShaped(fields[1..]);
      hide Empty, Shaped, Buildable;
      assert EmptyFields(fields)[1..] == EmptyFields(fields[1..]);
    }
  }

  /**
   A column is built exactly when every value conforms to its field; it then has the layout
   of its type and reads back, in order, the values that were appended.
   */
  lemma BuildReadsBack(codec: Codec, field: Field, terms: seq<Term>)
    requires Buildable(field.dataType)
    ensures Build(codec, field, terms).Some? <==> AllConform(codec, field.dataType, field.nullable, terms)
    ensures var c := Build(codec, field, terms);
            c.Some? ==>
              && Shaped(field.dataType, c.value) && Len(c.value) == |terms|
              && Values(codec, field.dataType, c.value) == NormalizeAll(codec, field.dataType, terms)
  {
    EmptyShaped(field.dataType);
    AppendAllGains(codec, field.dataType, field.nullable, Empty(field.dataType), terms);
    hide AppendAll, Shaped, AllConform, Buildable;
  }

  // ---------- When nothing is lost ----------

  /** Encoding a decoded scalar gives the scalar back. */
  ghost predicate Lossless(codec: Codec) {
    forall t, x :: codec.decode(t, x).Some? ==> codec.encode(t, codec.decode(t, x).value) == x
  }

  function Names(fields: seq<Field>): set<string> {
    set i | 0 <= i < |fields| :: fields[i].name
  }

  /** Every map in the term has entries for the fields of its struct and no others. */
  predicate NoExtras(t: DataType, term: Term)
    decreases t, 0, 0
  {
    if IsList(t) || t.FixedSizeList? then term.ListTerm? ==> NoneHasExtras(t.item.dataType, term.items)
    else if t.Struct? then
      (t.fields == [] ==> term.MapTerm? || term.Nil?)
      && (term.MapTerm? ==> term.entries.Keys == Names(t.fields) && FieldsHaveNoExtras(t.fields, term.entries))
    else true
  }

  predicate NoneHasExtras(t: DataType, terms: seq<Term>)
    decreases t, 1, |terms|
  {
    terms == [] || (NoExtras(t, terms[0]) && NoneHasExtras(t, terms[1..]))
  }

  predicate FieldsHaveNoExtras(fields: seq<Field>, entries: map<string, Term>)
    decreases fields, 0, 0
  {
    fields == []
    || (&& (fields[0].name in entries ==> NoExtras(fields[0].dataType, entries[fields[0].name]))
        && FieldsHaveNoExtras(fields[1..], entries))
  }

  lemma {:induction false} NormalizeSame(codec: Codec, t: DataType, nullable: bool, term: Term)
    requires Lossless(codec) && Conforms(codec, t, nullable, term) && NoExtras(t, term)
    ensures Normalize(codec, t, term) == term
    decreases t, 0, 0
  {
    if !term.Nil? {
      if IsList(t) || t.FixedSizeList? {
        NormalizeAllSame(codec, t.item.dataType, t.item.nullable, term.items);
      } else if t.Struct? {
        NormalizeFieldsSame(codec, t.fields, term, map[]);
        hide NormalizeFields, FieldsConform, FieldsHaveNoExtras;
        assert (map k | k in Names(t.fields) :: term.entries[k]) == term.entries;
      }
    }
  }

  lemma {:induction false} NormalizeAllSame(codec: Codec, t: DataType, nullable: bool, terms: seq<Term>)
    requires Lossless(codec) && AllConform(codec, t, nullable, terms) && NoneHasExtras(t, terms)
    ensures NormalizeAll(codec, t, terms) == terms
    decreases t, 1, |terms|
  {
    if terms != [] {
      NormalizeSame(codec, t, nullable, terms[0]);
      NormalizeAllSame(codec, t, nullable, terms[1..]);
    }
  }

  lemma PutThenPutAll(m: map<string, Term>, name: string, names: set<string>, entries: map<string, Term>)
    requires name in entries && names <= entries.Keys
    ensures m[name := entries[name]] + (map k | k in names :: entries[k]) ==
            m + (map k | k in {name} + names :: entries[k])
  {
  }

  lemma {:induction false} NormalizeFieldsSame(codec: Codec, fields: seq<Field>, term: Term, m: map<string, Term>)
    requires Lossless(codec) && term.MapTerm? && FieldsConform(codec, fields, term)
        && FieldsHaveNoExtras(fields, term.entries)
    ensures Names(fields) <= term.entries.Keys
    ensures NormalizeFields(codec, fields, term, m) == m + (map k | k in Names(fields) :: term.entries[k])
    decreases fields, 0, 0
  {
    if fields != [] {
      var f := fields[0];
      var value := term.entries[f.name];
      NormalizeSame(codec, f.dataType, f.nullable, value);
      NormalizeFieldsSame(codec, fields[1..], term, m[f.name := value]);
      assert Names(fields) == {f.name} + Names(fields[1..]);
      hide Normalize, Conforms, NoExtras, Names;
      PutThenPutAll(m, f.name, Names(fields[1..]), term.entries);
    } else {
      assert Names(fields) == {};
    }
  }

  /** With a lossless codec and no stray map entries, reading index `i` of a built column gives value `i`. */
  lemma BuiltValueIsInput(codec: Codec, field: Field, terms: seq<Term>, i: nat)
    requires Buildable(field.dataType) && Lossless(codec)
    requires AllConform(codec, field.dataType, field.nullable, terms) && NoneHasExtras(field.dataType, terms)
    requires i < |terms|
    ensures var c := Build(codec, field, terms);
            c.Some? && Shaped(field.dataType, c.value) && Len(c.value) == |terms|
            && ReadValue(codec, field.dataType, c.value, i) == terms[i]
  {
    BuildReadsBack(codec, field, terms);
    NormalizeAllSame(codec, field.dataType, field.nullable, terms);
    ReadRangeAt(codec, field.dataType, Build(codec, field, terms).value, 0, |terms|);
    hide Build, Shaped, ReadValue, NormalizeAll, AllConform, ReadRange;
  }

  // ---------- Batches ----------

  /** A batch at the native boundary: named columns, in order. */
  datatype NativeBatch = NativeBatch(rowCount: nat, columns: seq<(string, Term)>)

  /** The checks of `decode_batch` that come before the values, for one column after another. */
  predicate ColumnsFit(fields: seq<Field>, columns: seq<(string, Term)>, rowCount: nat) {
    && |columns| == |fields|
    && forall i :: 0 <= i < |fields| ==>
         columns[i].0 == fields[i].name && columns[i].1.ListTerm? && |columns[i].1.items| == rowCount
  }

  /** `decode_batch`; a record batch needs at least one column. */
  function DecodeBatch(codec: Codec, fields: seq<Field>, batch: NativeBatch, maxRows: nat): Option<seq<Column>> {
    if batch.rowCount > maxRows || !ColumnsFit(fields, batch.columns, batch.rowCount) || fields == [] then None
    else BuildColumns(codec, fields, batch.columns)
  }

  function BuildColumns(codec: Codec, fields: seq<Field>, columns: seq<(string, Term)>): Option<seq<Column>>
    requires |fields| == |columns| && forall i :: 0 <= i < |columns| ==> columns[i].1.ListTerm?
  {
    if fields == [] then Some([])
    else
      var first := Build(codec, fields[0], columns[0].1.items);
      var rest := BuildColumns(codec, fields[1..], columns[1..]);
      if first.None? || rest.None? then None else Some([first.value] + rest.value)
  }

  /** `encode_batch`. */
  function EncodeBatch(codec: Codec, fields: seq<Field>, arrays: seq<Column>, rowCount: nat): NativeBatch
    requires FieldsShaped(fields, arrays, rowCount)
  {
    NativeBatch(rowCount, EncodeColumns(codec, fields, arrays, rowCount))
  }

  function EncodeColumns(codec: Codec, fields: seq<Field>, arrays: seq<Column>, rowCount: nat): seq<(string, Term)>
    requires FieldsShaped(fields, arrays, rowCount)
  {
    if fields == [] then []
    else
      [(fields[0].name, ListTerm(Values(codec, fields[0].dataType, arrays[0])))]
      + EncodeColumns(codec, fields[1..], arrays[1..], rowCount)
  }

  predicate ColumnsConform(codec: Codec, fields: seq<Field>, columns: seq<(string, Term)>)
    requires |fields| == |columns| && forall i :: 0 <= i < |columns| ==> columns[i].1.ListTerm?
  {
    fields == []
    || (&& AllConform(codec, fields[0].dataType, fields[0].nullable, columns[0].1.items)
        && ColumnsConform(codec, fields[1..], columns[1..]))
  }

  predicate ColumnsHaveNoExtras(fields: seq<Field>, columns: seq<(string, Term)>)
    requires |fields| == |columns| && forall i :: 0 <= i < |columns| ==> columns[i].1.ListTerm?
  {
    fields == []
    || (NoneHasExtras(fields[0].dataType, columns[0].1.items) && ColumnsHaveNoExtras(fields[1..], columns[1..]))
  }

  lemma {:induction false} ColumnsBuilt(codec: Codec, fields: seq<Field>, columns: seq<(string, Term)>, rowCount: nat)
    requires AllBuildable(fields) && ColumnsFit(fields, columns, rowCount)
    ensures BuildColumns(codec, fields, columns).Some? <==> ColumnsConform(codec, fields, columns)
    ensures BuildColumns(codec, fields, columns).Some? ==>
        FieldsShaped(fields, BuildColumns(codec, fields, columns).value, rowCount)
    ensures BuildColumns(codec, fields, columns).Some? && Lossless(codec) && ColumnsHaveNoExtras(fields, columns) ==>
              EncodeColumns(codec, fields, BuildColumns(codec, fields, columns).value, rowCount) == columns
  {
    if fields != [] {
      var f, items := fields[0], columns[0].1.items;
      BuildReadsBack(codec, f, items);
      ColumnsBuilt(codec, fields[1..], columns[1..], rowCount);
      if Lossless(codec) && NoneHasExtras(f.dataType, items) && AllConform(codec, f.dataType, f.nullable, items) {
        NormalizeAllSame(codec, f.dataType, f.nullable, items);
      }
      hide Build, Shaped, AllConform, NoneHasExtras, NormalizeAll, Values, Buildable, Lossless;
      var arrays := BuildColumns(codec, fields, columns);
      if arrays.Some? {
        assert arrays.value[1..] == BuildColumns(codec, fields[1..], columns[1..]).value;
        assert columns == [(f.name, ListTerm(items))] + columns[1..];
      }
    }
  }

  /**
   A batch within the row bound whose columns match the schema's names, lengths and types
   is accepted, every other batch is refused, and an accepted batch is what is read back.
   */
  lemma BatchReadsBack(codec: Codec, fields: seq<Field>, batch: NativeBatch, maxRows: nat)
    requires AllBuildable(fields) && Lossless(codec)
    ensures DecodeBatch(codec, fields, batch, maxRows).Some? <==>
              && batch.rowCount <= maxRows && fields != [] && ColumnsFit(fields, batch.columns, batch.rowCount)
              && ColumnsConform(codec, fields, batch.columns)
    ensures var arrays := DecodeBatch(codec, fields, batch, maxRows);
            arrays.Some? && ColumnsHaveNoExtras(fields, batch.columns) ==>
              && FieldsShaped(fields, arrays.value, batch.rowCount)
              && EncodeBatch(codec, fields, arrays.value, batch.rowCount) == batch
  {
    hide Lossless;
    if ColumnsFit(fields, batch.columns, batch.rowCount) {
      ColumnsBuilt(codec, fields, batch.columns, batch.rowCount);
    }
  }
}
