/**
 The builders of native/parquex_nif/src/writer.rs as they run: a tree of mutable builders
 that `append_value` and `append_null` extend in place, tied to the functions on columns.
 */
module NestedBuilders {
  import opened Text
  import opened SchemaTypes
  import opened NestedColumns

  /** What a dynamic builder can be downcast to. */
  datatype BuilderKind = LeafBuilder | ListBuilder | FixedListBuilder | StructBuilder

  class Builder {
    const kind: BuilderKind
    const children: seq<Builder>
    ghost const Repr: set<object>
    var slots: seq<Option<string>>
    var validity: seq<bool>
    var offsets: seq<nat>

    /** The builders form a tree. Only constants are involved, so no method can break it. */
    ghost predicate Valid()
      decreases Repr, 0
    {
      && this !in Footprint(children) && Repr == {this} + Footprint(children)
      && (kind.ListBuilder? || kind.FixedListBuilder? ==> |children| == 1)
      && Separate(children)
    }

    /** The column built so far. */
    ghost function Content(): Column
      requires Valid()
      reads Repr
      decreases Repr, 0
    {
      match kind
      case LeafBuilder => LeafColumn(slots)
      case ListBuilder => ListColumn(validity, offsets, Contents(children)[0])
      case FixedListBuilder => FixedColumn(validity, Contents(children)[0])
      case StructBuilder => StructColumn(validity, Contents(children))
    }

    function Length(): (n: nat)
      requires Valid()
      reads this
    {
      if kind.LeafBuilder? then |slots| else |validity|
    }

    constructor Leaf()
      ensures Valid() && fresh(Repr) && Content() == LeafColumn([])
    {
      kind, children, Repr := LeafBuilder, [], {this};
      slots, validity, offsets := [], [], [];
    }

    constructor Nested(kind: BuilderKind, children: seq<Builder>)
      requires !kind.LeafBuilder? && (kind.StructBuilder? || |children| == 1)
      requires Separate(children)
      ensures Valid() && this.kind == kind && this.children == children
      ensures fresh(Repr - Footprint(children))
      ensures validity == [] && offsets == [0] && Contents(children) == old(Contents(children))
    {
      this.kind, this.children := kind, children;
      Repr := {this} + Footprint(children);
      slots, validity, offsets := [], [], [0];
      new;
      NotBelow(this, children);
    }

    // ---------- Nulls ----------

    method AppendNull(t: DataType) returns (ok: bool)
      requires Valid()
      modifies Repr
      ensures ok <==> NestedColumns.AppendNull(t, old(Content())).Some?
      ensures ok ==> Content() == NestedColumns.AppendNull(t, old(Content())).value
      decreases t, 0
    {
      if IsList(t) {
        if !kind.ListBuilder? { return false; }
        PushEntry(false);
        ok := true;
      } else if t.FixedSizeList? {
        ok := PadFixed(t.item, t.length);
      } else if t.Struct? {
        ok := PadStruct(t.fields);
      } else {
        if !kind.LeafBuilder? || !BuildableLeaf(t) { return false; }
        slots := slots + [None];
        ok := true;
      }
    }

    /** A list builder's `append`. */
    method PushEntry(valid: bool)
      requires Valid() && kind.ListBuilder?
      modifies this
      ensures Content() == PushList(old(Content()), Contents(children)[0], valid)
      ensures Contents(children) == old(Contents(children))
    {
      ContentsAt(children, 0);
      offsets := offsets + [children[0].Length()];
      validity := validity + [valid];
    }

    /** One step of the null branches: a null into child `k`. */
    method PadChild(k: nat, t: DataType) returns (ok: bool)
      requires Valid() && k < |children|
      modifies Footprint(children)
      ensures var after := NestedColumns.AppendNull(t, old(Contents(children)[k]));
              (ok <==> after.Some?) && (ok ==> Contents(children) == old(Contents(children))[k := after.value])
      decreases t, 1
    {
      ghost var child, below, above := children[k], children[..k], children[k + 1..];
      SplitAt(children, k);
      ghost var low, high := Contents(below), Contents(above);
      ok := children[k].AppendNull(t);
      SplitAt(children, k);
      hide NestedColumns.AppendNull, Contents, Separate, Footprint, Builder.Content, Builder.Valid;
      assert Contents(below) == low;
      assert Contents(above) == high;
    }

    /** The null branch of a fixed list: a null entry over `length` null slots. */
    method PadFixed(item: Field, length: int) returns (ok: bool)
      requires Valid()
      modifies Repr
      ensures var after := AppendFixedNull(item, length, old(Content()));
              (ok <==> after.Some?) && (ok ==> Content() == after.value)
      decreases item
    {
      if !kind.FixedListBuilder? { return false; }
      ghost var start := Contents(children)[0];
      ghost var count := if length < 0 then 0 else length;
      var done := 0;
      while done < length
        invariant 0 <= done <= count
        invariant validity == old(validity)
        invariant AppendNulls(item.dataType, start, count) ==
                    AppendNulls(item.dataType, Contents(children)[0], count - done)
        modifies Footprint(children)
      {
        var padded := PadChild(0, item.dataType);
        if !padded { return false; }
        done := done + 1;
      }
      validity := validity + [false];
      ok := true;
    }

    /** The loop of a struct's null branch: a null slot in every child. */
    method PadFields(fields: seq<Field>) returns (ok: bool)
      requires Valid()
      modifies Footprint(children)
      ensures var after := AppendNullFields(fields, old(Contents(children)));
              (ok <==> after.Some?) && (ok ==> Contents(children) == after.value)
      decreases fields, 0
    {
      ghost var start := Contents(children);
      ghost var done: seq<Column> := [];
      var k := 0;
      PadBegin(fields, start);
      hide NestedColumns.AppendNull, AppendNullFields, PadProgress, Contents, Builder.Content;
      while k < |fields| && k < |children|
        invariant 0 <= k <= |fields| && k <= |children| && |done| == k
        invariant PadProgress(fields, start, Contents(children), done)
        modifies Footprint(children)
      {
        PadStep(fields, start, Contents(children), done);
        var padded := PadChild(k, fields[k].dataType);
        if !padded { return false; }
        done := done + [Contents(children)[k]];
        k := k + 1;
      }
      PadEnd(fields, start, Contents(children), done);
      ok := true;
    }

    /** The null branch of a struct: a null entry over a null slot in every child. */
    method PadStruct(fields: seq<Field>) returns (ok: bool)
      requires Valid()
      modifies Repr
      ensures var after := AppendStructNull(fields, old(Content()));
              (ok <==> after.Some?) && (ok ==> Content() == after.value)
      decreases fields, 1
    {
      hide AppendNullFields;
      if !kind.StructBuilder? { return false; }
      ok := PadFields(fields);
      if ok {
        validity := validity + [false];
      }
    }

    // ---------- Values ----------

    method AppendValue(codec: Codec, t: DataType, nullable: bool, term: Term) returns (ok: bool)
      requires Valid()
      modifies Repr
      ensures var after := NestedColumns.AppendValue(codec, t, nullable, old(Content()), term);
              (ok <==> after.Some?) && (ok ==> Content() == after.value)
      decreases t, 0
    {
      if term.Nil? && !nullable { return false; }
      if IsList(t) {
        ok := ListValue(codec, t.item, term);
      } else if t.FixedSizeList? {
        ok := FixedListValue(codec, t.item, t.length, term);
      } else if t.Struct? {
        ok := StructValue(codec, t.fields, term);
      } else {
        ok := LeafValue(codec, t, term);
      }
    }

    method LeafValue(codec: Codec, t: DataType, term: Term) returns (ok: bool)
      requires Valid()
      modifies this
      ensures var after := AppendLeaf(codec, t, old(Content()), term);
              (ok <==> after.Some?) && (ok ==> Content() == after.value)
    {
      if !kind.LeafBuilder? || !BuildableLeaf(t) { return false; }
      if term.Nil? {
        slots := slots + [None];
      } else {
        if t.Null? || !term.Scalar? { return false; }
        var value := codec.decode(t, term.text);
        if value.None? { return false; }
        slots := slots + [value];
      }
      ok := true;
    }

    /** One step of the value branches: a value into child `k`. */
    method PutChild(codec: Codec, k: nat, t: DataType, nullable: bool, term: Term) returns (ok: bool)
      requires Valid() && k < |children|
      modifies Footprint(children)
      ensures var after := NestedColumns.AppendValue(codec, t, nullable, old(Contents(children)[k]), term);
              (ok <==> after.Some?) && (ok ==> Contents(children) == old(Contents(children))[k := after.value])
      decreases t, 1
    {
      ghost var child, below, above := children[k], children[..k], children[k + 1..];
      SplitAt(children, k);
      ghost var low, high := Contents(below), Contents(above);
      ok := children[k].AppendValue(codec, t, nullable, term);
      SplitAt(children, k);
      hide NestedColumns.AppendValue, Contents, Separate, Footprint, Builder.Content, Builder.Valid;
      assert Contents(below) == low;
      assert Contents(above) == high;
    }

    /** The loop of `list_value` and `fixed_list_value`. */
    method PutItems(codec: Codec, item: Field, items: seq<Term>) returns (ok: bool)
      requires Valid() && |children| == 1
      modifies Footprint(children)
      ensures var after := AppendAll(codec, item.dataType, item.nullable, old(Contents(children)[0]), items);
              (ok <==> after.Some?) && (ok ==> Contents(children)[0] == after.value)
      decreases item, 0
    {
      var t, nullable := item.dataType, item.nullable;
      ghost var start := Contents(children)[0];
      var i := 0;
      assert items[0..] == items;
      while i < |items|
        invariant 0 <= i <= |items|
        invariant AppendAll(codec, t, nullable, start, items) == AppendAll(codec, t, nullable, Contents(children)[0],
            items[i..])
      {
        AppendAllUnfolds(codec, t, nullable, Contents(children)[0], items[i..]);
        hide AppendAll, NestedColumns.AppendValue;
        var put := PutChild(codec, 0, t, nullable, items[i]);
        if !put { return false; }
        assert items[i..][1..] == items[i + 1..];
        i := i + 1;
      }
      ok := true;
    }

    method ListValue(codec: Codec, item: Field, term: Term) returns (ok: bool)
      requires Valid()
      modifies Repr
      ensures var after := AppendList(codec, item, old(Content()), term);
              (ok <==> after.Some?) && (ok ==> Content() == after.value)
      decreases item, 1
    {
      if !kind.ListBuilder? { return false; }
      if term.Nil? {
        PushEntry(false);
        return true;
      }
      if !term.ListTerm? { return false; }
      var put := PutItems(codec, item, term.items);
      if !put { return false; }
      PushEntry(true);
      ok := true;
    }

    method FixedListValue(codec: Codec, item: Field, length: int, term: Term) returns (ok: bool)
      requires Valid()
      modifies Repr
      ensures var after := AppendFixed(codec, item, length, old(Content()), term);
              (ok <==> after.Some?) && (ok ==> Content() == after.value)
      decreases item, 1
    {
      if !kind.FixedListBuilder? { return false; }
      if term.Nil? {
        ok := PadFixed(item, length);
        return;
      }
      if !term.ListTerm? || |term.items| != length { return false; }
      var put := PutItems(codec, item, term.items);
      if !put { return false; }
      validity := validity + [true];
      ok := true;
    }

    method StructValue(codec: Codec, fields: seq<Field>, term: Term) returns (ok: bool)
      requires Valid()
      modifies Repr
      ensures var after := AppendStruct(codec, fields, old(Content()), term);
              (ok <==> after.Some?) && (ok ==> Content() == after.value)
      decreases fields, 1
    {
      if !kind.StructBuilder? { return false; }
      if term.Nil? {
        ok := PadStruct(fields);
        return;
      }
      ok := PutFields(codec, fields, term);
      if ok {
        validity := validity + [true];
      }
    }

    /** The loop of `struct_value`. */
    method PutFields(codec: Codec, fields: seq<Field>, term: Term) returns (ok: bool)
      requires Valid()
      modifies Footprint(children)
      ensures var after := AppendFields(codec, fields, old(Contents(children)), term);
              (ok <==> after.Some?) && (ok ==> Contents(children) == after.value)
      decreases fields, 0
    {
      ghost var start := Contents(children);
      ghost var done: seq<Column> := [];
      var k := 0;
      PutBegin(codec, fields, term, start);
      while k < |fields| && k < |children|
        invariant 0 <= k <= |fields| && k <= |children| && |done| == k
        invariant PutProgress(codec, fields, term, start, Contents(children), done)
      {
        hide NestedColumns.AppendValue, AppendFields, PutProgress, Contents;
        var f := fields[k];
        PutStep(codec, fields, term, start, Contents(children), done);
        if !term.MapTerm? || f.name !in term.entries { return false; }
        var put := PutChild(codec, k, f.dataType, f.nullable, term.entries[f.name]);
        if !put { return false; }
        done := done + [Contents(children)[k]];
        k := k + 1;
      }
      PutEnd(codec, fields, term, start, Contents(children), done);
      ok := true;
    }
  }

  /** `make_builder`. */
  method MakeBuilder(t: DataType) returns (b: Builder)
    ensures b.Valid() && fresh(b.Repr) && b.Content() == Empty(t)
    decreases t
  {
    if t.Struct? {
      var children := MakeBuilders(t.fields);
      b := new Builder.Nested(StructBuilder, children);
    } else if IsNested(t) {
      var child := MakeBuilder(t.item.dataType);
      assert [child][1..] == [];
      b := new Builder.Nested(if IsList(t) then ListBuilder else FixedListBuilder, [child]);
    } else {
      b := new Builder.Leaf();
    }
  }

  method MakeBuilders(fields: seq<Field>) returns (builders: seq<Builder>)
    ensures Separate(builders) && fresh(Footprint(builders)) && Contents(builders) == EmptyFields(fields)
    decreases fields
  {
    if fields == [] { return []; }
    var first := MakeBuilder(fields[0].dataType);
    var rest := MakeBuilders(fields[1..]);
    builders := [first] + rest;
    assert builders[1..] == rest;
    assert first.Repr !! Footprint(rest);
  }

  /** `build_array`: the finished builder, or nothing when a value was refused. */
  method BuildArray(codec: Codec, field: Field, terms: seq<Term>) returns (built: Option<Builder>)
    ensures var column := Build(codec, field, terms);
            (built.Some? <==> column.Some?)
            && (built.Some? ==> built.value.Valid() && fresh(built.value.Repr) && built.value.Content() == column.value)
    ensures Buildable(field.dataType) ==>
              (built.Some? <==> AllConform(codec, field.dataType, field.nullable, terms))
    ensures Buildable(field.dataType) && built.Some? ==>
              && Shaped(field.dataType, built.value.Content())
              && Values(codec, field.dataType, built.value.Content()) == NormalizeAll(codec, field.dataType, terms)
  {
    if Buildable(field.dataType) {
      BuildReadsBack(codec, field, terms);
    }
    var t, nullable := field.dataType, field.nullable;
    var builder := MakeBuilder(t);
    var i := 0;
    assert terms[0..] == terms;
    while i < |terms|
      invariant 0 <= i <= |terms|
      invariant AppendAll(codec, t, nullable, Empty(t), terms) == AppendAll(codec, t, nullable, builder.Content(),
          terms[i..])
    {
      AppendAllUnfolds(codec, t, nullable, builder.Content(), terms[i..]);
      hide AppendAll, NestedColumns.AppendValue;
      var appended := builder.AppendValue(codec, t, nullable, terms[i]);
      if !appended { return None; }
      assert terms[i..][1..] == terms[i + 1..];
      i := i + 1;
    }
    built := Some(builder);
  }

  // ---------- Builder trees ----------

  ghost function Footprint(builders: seq<Builder>): set<object> {
    if builders == [] then {} else builders[0].Repr + Footprint(builders[1..])
  }

  /** Sound builders that share nothing. */
  ghost predicate Separate(builders: seq<Builder>)
    decreases Footprint(builders), |builders| + 1
  {
    builders == []
    || (builders[0].Valid() && builders[0].Repr !! Footprint(builders[1..]) && Separate(builders[1..]))
  }

  ghost function Contents(builders: seq<Builder>): (columns: seq<Column>)
    requires Separate(builders)
    reads Footprint(builders)
    ensures |columns| == |builders|
    decreases Footprint(builders), |builders| + 1
  {
    if builders == [] then [] else [builders[0].Content()] + Contents(builders[1..])
  }

  lemma {:induction false} ContentsAt(builders: seq<Builder>, k: nat)
    requires Separate(builders) && k < |builders|
    ensures builders[k].Valid() && builders[k].Repr <= Footprint(builders)
    ensures Contents(builders)[k] == builders[k].Content()
    ensures builders[k].Length() == Len(builders[k].Content())
  {
    if k > 0 {
      ContentsAt(builders[1..], k - 1);
    }
  }

  /** A builder among its neighbours, which share nothing with it. */
  lemma {:induction false} SplitAt(builders: seq<Builder>, k: nat)
    requires Separate(builders) && k < |builders|
    ensures Separate(builders[..k]) && Separate(builders[k + 1..]) && builders[k].Valid()
    ensures builders[k].Repr <= Footprint(builders)
    ensures builders[k].Repr !! Footprint(builders[..k]) && builders[k].Repr !! Footprint(builders[k + 1..])
    ensures Footprint(builders[..k]) <= Footprint(builders) && Footprint(builders[k + 1..]) <= Footprint(builders)
    ensures Contents(builders) == Contents(builders[..k]) + [builders[k].Content()] + Contents(builders[k + 1..])
  {
    if k > 0 {
      SplitAt(builders[1..], k - 1);
      assert builders[..k][1..] == builders[1..][..k - 1] && builders[1..][k..] == builders[k + 1..];
    } else {
      assert builders[..0] == [];
    }
  }

  lemma {:induction false} NotBelow(o: object, builders: seq<Builder>)
    requires forall i :: 0 <= i < |builders| ==> o !in builders[i].Repr
    ensures o !in Footprint(builders)
  {
    if builders != [] {
      assert o !in builders[0].Repr;
      assert forall i :: 0 < i < |builders| ==> builders[i] == builders[1..][i - 1];
      NotBelow(o, builders[1..]);
    }
  }

  // ---------- Struct children, one after another ----------

  /** The rest of a struct's children, after those already done. */
  ghost function Prepend(done: seq<Column>, rest: Option<seq<Column>>): Option<seq<Column>> {
    if rest.None? then None else Some(done + rest.value)
  }

  lemma PrependNothing(rest: Option<seq<Column>>)
    ensures Prepend([], rest) == rest
  {
    assert rest.Some? ==> [] + rest.value == rest.value;
  }

  lemma PrependMore(done: seq<Column>, column: Column, rest: seq<Column>)
    ensures done + ([column] + rest) == (done + [column]) + rest
  {
  }

  lemma UpdateSplit(done: seq<Column>, rest: seq<Column>, column: Column)
    requires rest != []
    ensures (done + rest)[|done|] == rest[0]
    ensures (done + rest)[|done| := column] == (done + [column]) + rest[1..]
  {
  }

  /** The struct's children, now that those in `done` have their null slot. */
  ghost predicate PadProgress(fields: seq<Field>, start: seq<Column>, now: seq<Column>, done: seq<Column>) {
    && |done| <= |fields| && |done| <= |start| && now == done + start[|done|..]
    && AppendNullFields(fields, start) == Prepend(done, AppendNullFields(fields[|done|..], start[|done|..]))
  }

  lemma PadBegin(fields: seq<Field>, start: seq<Column>)
    ensures PadProgress(fields, start, start, [])
  {
    PrependNothing(AppendNullFields(fields, start));
    assert fields[0..] == fields && start[0..] == start && [] + start == start;
  }

  lemma PadStep(fields: seq<Field>, start: seq<Column>, now: seq<Column>, done: seq<Column>)
    requires PadProgress(fields, start, now, done) && |done| < |fields| && |done| < |start|
    ensures |now| == |start|
    ensures var first := NestedColumns.AppendNull(fields[|done|].dataType, now[|done|]);
            if first.None? then AppendNullFields(fields, start).None?
            else PadProgress(fields, start, now[|done| := first.value], done + [first.value])
  {
    hide NestedColumns.AppendNull;
    var k, rest, left := |done|, start[|done|..], fields[|done|..];
    assert left[1..] == fields[k + 1..] && rest[1..] == start[k + 1..];
    UpdateSplit(done, rest, rest[0]);
    var first, more := NestedColumns.AppendNull(left[0].dataType, rest[0]), AppendNullFields(left[1..], rest[1..]);
    if first.Some? {
      UpdateSplit(done, rest, first.value);
      if more.Some? {
        PrependMore(done, first.value, more.value);
      }
    }
  }

  lemma PadEnd(fields: seq<Field>, start: seq<Column>, now: seq<Column>, done: seq<Column>)
    requires PadProgress(fields, start, now, done) && (|done| == |fields| || |done| == |start|)
    ensures AppendNullFields(fields, start) == Some(now)
  {
  }

  /** The struct's children, now that those in `done` have their value. */
  ghost predicate PutProgress(codec: Codec, fields: seq<Field>, term: Term, start: seq<Column>, now: seq<Column>,
      done: seq<Column>) {
    && |done| <= |fields| && |done| <= |start| && now == done + start[|done|..]
    && AppendFields(codec, fields, start, term) == Prepend(done,
        AppendFields(codec, fields[|done|..], start[|done|..], term))
  }

  lemma PutBegin(codec: Codec, fields: seq<Field>, term: Term, start: seq<Column>)
    ensures PutProgress(codec, fields, term, start, start, [])
  {
    PrependNothing(AppendFields(codec, fields, start, term));
    assert fields[0..] == fields && start[0..] == start && [] + start == start;
  }

  lemma PutStep(codec: Codec, fields: seq<Field>, term: Term, start: seq<Column>, now: seq<Column>, done: seq<Column>)
    requires PutProgress(codec, fields, term, start, now, done) && |done| < |fields| && |done| < |start|
    ensures |now| == |start|
    ensures !term.MapTerm? || fields[|done|].name !in term.entries ==> AppendFields(codec, fields, start, term).None?
    ensures term.MapTerm? && fields[|done|].name in term.entries ==>
              var f := fields[|done|];
              var first := NestedColumns.AppendValue(codec, f.dataType, f.nullable, now[|done|], term.entries[f.name]);
              if first.None? then AppendFields(codec, fields, start, term).None?
              else PutProgress(codec, fields, term, start, now[|done| := first.value], done + [first.value])
  {
    hide NestedColumns.AppendValue;
    var k, rest, left := |done|, start[|done|..], fields[|done|..];
    assert left[1..] == fields[k + 1..] && rest[1..] == start[k + 1..];
    UpdateSplit(done, rest, rest[0]);
    if term.MapTerm? && left[0].name in term.entries {
      var f := left[0];
      var first := NestedColumns.AppendValue(codec, f.dataType, f.nullable, rest[0], term.entries[f.name]);
      var more := AppendFields(codec, left[1..], rest[1..], term);
      if first.Some? {
        UpdateSplit(done, rest, first.value);
        if more.Some? {
          PrependMore(done, first.value, more.value);
        }
      }
    }
  }

  lemma PutEnd(codec: Codec, fields: seq<Field>, term: Term, start: seq<Column>, now: seq<Column>, done: seq<Column>)
    requires PutProgress(codec, fields, term, start, now, done) && (|done| == |fields| || |done| == |start|)
    ensures AppendFields(codec, fields, start, term) == Some(now)
  {
  }
}
