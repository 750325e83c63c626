/**
 Type descriptors on their way through the library: Elixir types are encoded as
 descriptors (lib/parquex/schema.ex), turned into Arrow types by the writer
 (native/parquex_nif/src/writer.rs), turned back into descriptors by the reader
 (native/parquex_nif/src/reader.rs), and decoded into Elixir types again.
 */
module SchemaTypes {
  import opened Text

  datatype TimeUnit = Second | Millisecond | Microsecond | Nanosecond

  // ---------- The three forms of a type ----------

  /** The types of lib/parquex/schema.ex, with the numbers that its guards constrain left free. */
  datatype ElixirType =
    | EBoolean
    | EUtf8
    | EBinary
    | EDate32
    | EDate64
    | ENull
    | EInteger(bits: int, signed: bool)
    | EFloat(bits: int)
    | EFixedBinary(length: int)
    | ETime(unit: TimeUnit, bits: int)
    | ETimestamp(unit: TimeUnit, timezone: Option<string>)
    | EDuration(unit: TimeUnit)
    | EDecimal(bits: int, precision: int, scale: int)
    | EList(item: ElixirField)
    | ELargeList(item: ElixirField)
    | EFixedList(item: ElixirField, length: int)
    | EStruct(fields: seq<ElixirField>)

  datatype ElixirField = ElixirField(name: string, valueType: ElixirType, nullable: bool)

  datatype Kind =
    | KBoolean | KUtf8 | KBinary | KDate32 | KDate64 | KNull | KInteger | KFloat | KFixedBinary | KTime
    | KTimestamp | KDuration | KDecimal | KList | KLargeList | KFixedList | KStruct

  /** The descriptor at the native boundary. */
  datatype Descriptor = Descriptor(
    kind: Kind,
    bitWidth: Option<int>,
    signed: Option<bool>,
    unit: Option<TimeUnit>,
    timezone: Option<string>,
    precision: Option<int>,
    scale: Option<int>,
    length: Option<int>,
    children: seq<DescriptorField>
  )

  datatype DescriptorField = DescriptorField(name: string, nullable: bool, dataType: Descriptor)

  datatype DataType =
    | Null
    | Boolean
    | Int8 | Int16 | Int32 | Int64
    | UInt8 | UInt16 | UInt32 | UInt64
    | Float32 | Float64
    | Utf8 | LargeUtf8
    | Binary | LargeBinary
    | FixedSizeBinary(length: int)
    | Date32 | Date64
    | Time32(unit: TimeUnit)
    | Time64(unit: TimeUnit)
    | Timestamp(unit: TimeUnit, timezone: Option<string>)
    | Duration(unit: TimeUnit)
    | Decimal32(precision: int, scale: int)
    | Decimal64(precision: int, scale: int)
    | Decimal128(precision: int, scale: int)
    | Decimal256(precision: int, scale: int)
    | List(item: Field)
    | LargeList(item: Field)
    | FixedSizeList(item: Field, length: int)
    | Struct(fields: seq<Field>)

  datatype Field = Field(name: string, dataType: DataType, nullable: bool)

  const BARE: Descriptor := Descriptor(KNull, None, None, None, None, None, None, None, [])

  // ---------- Elixir to descriptor ----------

  /** `encode_type`, merged over the empty descriptor as `encode_field` does. */
  function EncodeType(t: ElixirType): Descriptor
    decreases t
  {
    match t
    case EBoolean => BARE.(kind := KBoolean)
    case EUtf8 => BARE.(kind := KUtf8)
    case EBinary => BARE.(kind := KBinary)
    case EDate32 => BARE.(kind := KDate32)
    case EDate64 => BARE.(kind := KDate64)
    case ENull => BARE.(kind := KNull)
    case EInteger(bits, signed) => BARE.(kind := KInteger, bitWidth := Some(bits), signed := Some(signed))
    case EFloat(bits) => BARE.(kind := KFloat, bitWidth := Some(bits))
    case EFixedBinary(length) => BARE.(kind := KFixedBinary, length := Some(length))
    case ETime(unit, bits) => BARE.(kind := KTime, unit := Some(unit), bitWidth := Some(bits))
    case ETimestamp(unit, timezone) => BARE.(kind := KTimestamp, unit := Some(unit), timezone := timezone)
    case EDuration(unit) => BARE.(kind := KDuration, unit := Some(unit))
    case EDecimal(bits, precision, scale) =>
      BARE.(kind := KDecimal, bitWidth := Some(bits), precision := Some(precision), scale := Some(scale))
    case EList(item) => BARE.(kind := KList, children := [EncodeField(item)])
    case ELargeList(item) => BARE.(kind := KLargeList, children := [EncodeField(item)])
    case EFixedList(item, length) =>
      BARE.(kind := KFixedList, children := [EncodeField(item)], length := Some(length))
    case EStruct(fields) => BARE.(kind := KStruct, children := EncodeFields(fields))
  }

  function EncodeField(f: ElixirField): DescriptorField
    decreases f
  {
    DescriptorField(f.name, f.nullable, EncodeType(f.valueType))
  }

  function EncodeFields(fields: seq<ElixirField>): seq<DescriptorField>
    decreases fields
  {
    if fields == [] then [] else [EncodeField(fields[0])] + EncodeFields(fields[1..])
  }

  // ---------- The boundary ----------

  predicate Within(n: Option<int>, low: int, high: int) {
    n.Some? ==> low <= n.value <= high
  }

  /** The numbers fit the integer types of the native structure, at every level. */
  predicate Fits(d: Descriptor)
    decreases d
  {
    && Within(d.bitWidth, 0, 0xFFFF) && Within(d.precision, 0, 0xFF) && Within(d.scale, -0x80, 0x7F)
    && Within(d.length, -0x8000_0000, 0x7FFF_FFFF)
    && forall i :: 0 <= i < |d.children| ==> Fits(d.children[i].dataType)
  }

  // ---------- Descriptor to Arrow ----------

  function IntegerType(bits: Option<int>, signed: Option<bool>): Option<DataType> {
    if bits.None? || signed.None? then None
    else if bits.value == 8 then Some(if signed.value then Int8 else UInt8)
    else if bits.value == 16 then Some(if signed.value then Int16 else UInt16)
    else if bits.value == 32 then Some(if signed.value then Int32 else UInt32)
    else if bits.value == 64 then Some(if signed.value then Int64 else UInt64)
    else None
  }

  function TimeType(bits: Option<int>, unit: Option<TimeUnit>): Option<DataType> {
    if bits == Some(32) && (unit == Some(Second) || unit == Some(Millisecond)) then Some(Time32(unit.value))
    else if bits == Some(64) && (unit == Some(Microsecond) || unit == Some(Nanosecond)) then Some(Time64(unit.value))
    else None
  }

  function DecimalType(bits: Option<int>, precision: Option<int>, scale: Option<int>): Option<DataType> {
    if precision.None? || scale.None? then None
    else if bits == Some(32) then Some(Decimal32(precision.value, scale.value))
    else if bits == Some(64) then Some(Decimal64(precision.value, scale.value))
    else if bits == Some(128) then Some(Decimal128(precision.value, scale.value))
    else if bits == Some(256) then Some(Decimal256(precision.value, scale.value))
    else None
  }

  /** `arrow_data_type`. */
  function ToArrow(d: Descriptor): Option<DataType>
    decreases d
  {
    match d.kind
    case KNull => Some(Null)
    case KBoolean => Some(Boolean)
    case KInteger => IntegerType(d.bitWidth, d.signed)
    case KFloat =>
      if d.bitWidth == Some(32) then Some(Float32) else if d.bitWidth == Some(64) then Some(Float64) else None
    case KUtf8 => Some(Utf8)
    case KBinary => Some(Binary)
    case KFixedBinary => if d.length.None? then None else Some(FixedSizeBinary(d.length.value))
    case KDate32 => Some(Date32)
    case KDate64 => Some(Date64)
    case KTime => TimeType(d.bitWidth, d.unit)
    case KTimestamp => if d.unit.None? then None else Some(Timestamp(d.unit.value, d.timezone))
    case KDuration => if d.unit.None? then None else Some(Duration(d.unit.value))
    case KDecimal => DecimalType(d.bitWidth, d.precision, d.scale)
    case KStruct =>
      var fields := ToArrowFields(d.children);
      if fields.None? then None else Some(Struct(fields.value))
    case _ =>
      if d.children == [] then None
      else
        var item := ToArrowField(d.children[0]);
        if item.None? then None
        else if d.kind.KList? then Some(List(item.value))
        else if d.kind.KLargeList? then Some(LargeList(item.value))
        else if d.length.None? then None
        else Some(FixedSizeList(item.value, d.length.value))
  }

  function ToArrowField(f: DescriptorField): Option<Field>
    decreases f
  {
    var t := ToArrow(f.dataType);
    if t.None? then None else Some(Field(f.name, t.value, f.nullable))
  }

  function ToArrowFields(fields: seq<DescriptorField>): Option<seq<Field>>
    decreases fields
  {
    if fields == [] then Some([])
    else
      var first, rest := ToArrowField(fields[0]), ToArrowFields(fields[1..]);
      if first.None? || rest.None? then None else Some([first.value] + rest.value)
  }

  // ---------- Arrow to descriptor ----------

  function IntegerDescriptor(bits: int, signed: bool): Descriptor {
    BARE.(kind := KInteger, bitWidth := Some(bits), signed := Some(signed))
  }

  function DecimalDescriptor(bits: int, precision: int, scale: int): Descriptor {
    BARE.(kind := KDecimal, bitWidth := Some(bits), precision := Some(precision), scale := Some(scale))
  }

  /** `native_data_type`. */
  function FromArrow(t: DataType): Option<Descriptor>
    decreases t
  {
    match t
    case Null => Some(BARE.(kind := KNull))
    case Boolean => Some(BARE.(kind := KBoolean))
    case Int8 => Some(IntegerDescriptor(8, true))
    case Int16 => Some(IntegerDescriptor(16, true))
    case Int32 => Some(IntegerDescriptor(32, true))
    case Int64 => Some(IntegerDescriptor(64, true))
    case UInt8 => Some(IntegerDescriptor(8, false))
    case UInt16 => Some(IntegerDescriptor(16, false))
    case UInt32 => Some(IntegerDescriptor(32, false))
    case UInt64 => Some(IntegerDescriptor(64, false))
    case Float32 => Some(BARE.(kind := KFloat, bitWidth := Some(32)))
    case Float64 => Some(BARE.(kind := KFloat, bitWidth := Some(64)))
    case Utf8 => Some(BARE.(kind := KUtf8))
    case LargeUtf8 => Some(BARE.(kind := KUtf8))
    case Binary => Some(BARE.(kind := KBinary))
    case LargeBinary => Some(BARE.(kind := KBinary))
    case FixedSizeBinary(length) =>
      if length > 0 then Some(BARE.(kind := KFixedBinary, length := Some(length))) else None
    case Date32 => Some(BARE.(kind := KDate32))
    case Date64 => Some(BARE.(kind := KDate64))
    case Time32(unit) =>
      if unit in {Second, Millisecond} then Some(BARE.(kind := KTime, unit := Some(unit), bitWidth := Some(32)))
        else None
    case Time64(unit) =>
      if unit in {Microsecond, Nanosecond} then Some(BARE.(kind := KTime, unit := Some(unit), bitWidth := Some(64)))
          else None
    case Timestamp(unit, timezone) => Some(BARE.(kind := KTimestamp, unit := Some(unit), timezone := timezone))
    case Duration(unit) => Some(BARE.(kind := KDuration, unit := Some(unit)))
    case Decimal32(p, s) => Some(DecimalDescriptor(32, p, s))
    case Decimal64(p, s) => Some(DecimalDescriptor(64, p, s))
    case Decimal128(p, s) => Some(DecimalDescriptor(128, p, s))
    case Decimal256(p, s) => Some(DecimalDescriptor(256, p, s))
    case List(item) =>
      var child := FromArrowField(item);
      if child.None? then None else Some(BARE.(kind := KList, children := [child.value]))
    case LargeList(item) =>
      var child := FromArrowField(item);
      if child.None? then None else Some(BARE.(kind := KLargeList, children := [child.value]))
    case FixedSizeList(item, length) =>
      var child := FromArrowField(item);
      if length <= 0 || child.None? then None
      else Some(BARE.(kind := KFixedList, children := [child.value], length := Some(length)))
    case Struct(fields) =>
      var children := FromArrowFields(fields);
      if children.None? then None else Some(BARE.(kind := KStruct, children := children.value))
  }

  function FromArrowField(f: Field): Option<DescriptorField>
    decreases f
  {
    var d := FromArrow(f.dataType);
    if d.None? then None else Some(DescriptorField(f.name, f.nullable, d.value))
  }

  function FromArrowFields(fields: seq<Field>): Option<seq<DescriptorField>>
    decreases fields
  {
    if fields == [] then Some([])
    else
      var first, rest := FromArrowField(fields[0]), FromArrowFields(fields[1..]);
      if first.None? || rest.None? then None else Some([first.value] + rest.value)
  }

  // ---------- Descriptor to Elixir ----------

  /** `decode_type`. */
  function DecodeType(d: Descriptor): Option<ElixirType>
    decreases d
  {
    match d.kind
    case KBoolean => Some(EBoolean)
    case KUtf8 => Some(EUtf8)
    case KBinary => Some(EBinary)
    case KDate32 => Some(EDate32)
    case KDate64 => Some(EDate64)
    case KNull => Some(ENull)
    case KInteger =>
      if d.bitWidth.Some? && d.bitWidth.value in {8, 16, 32, 64} && d.signed.Some?
      then Some(EInteger(d.bitWidth.value, d.signed.value)) else None
    case KFloat =>
      if d.bitWidth.Some? && d.bitWidth.value in {32, 64} then Some(EFloat(d.bitWidth.value)) else None
    case KFixedBinary =>
      if d.length.Some? && d.length.value > 0 then Some(EFixedBinary(d.length.value)) else None
    case KTime =>
      if d.bitWidth == Some(32) && d.unit in {Some(Second), Some(Millisecond)} then Some(ETime(d.unit.value, 32))
      else if d.bitWidth == Some(64) && d.unit in {Some(Microsecond), Some(Nanosecond)} then
        Some(ETime(d.unit.value, 64))
      else None
    case KTimestamp => if d.unit.Some? then Some(ETimestamp(d.unit.value, d.timezone)) else None
    case KDuration => if d.unit.Some? then Some(EDuration(d.unit.value)) else None
    case KDecimal =>
      if d.bitWidth.Some? && d.bitWidth.value in {32, 64, 128, 256} && d.precision.Some? && d.precision.value > 0
          && d.scale.Some?
      then Some(EDecimal(d.bitWidth.value, d.precision.value, d.scale.value)) else None
    case KStruct =>
      var fields := DecodeFields(d.children);
      if fields.None? then None else Some(EStruct(fields.value))
    case _ =>
      if |d.children| != 1 then None
      else
        var item := DecodeField(d.children[0]);
        if item.None? then None
        else if d.kind.KList? then Some(EList(item.value))
        else if d.kind.KLargeList? then Some(ELargeList(item.value))
        else if d.length.Some? && d.length.value > 0 then Some(EFixedList(item.value, d.length.value))
        else None
  }

  function DecodeField(f: DescriptorField): Option<ElixirField>
    decreases f
  {
    var t := DecodeType(f.dataType);
    if t.None? then None else Some(ElixirField(f.name, t.value, f.nullable))
  }

  function DecodeFields(fields: seq<DescriptorField>): Option<seq<ElixirField>>
    decreases fields
  {
    if fields == [] then Some([])
    else
      var first, rest := DecodeField(fields[0]), DecodeFields(fields[1..]);
      if first.None? || rest.None? then None else Some([first.value] + rest.value)
  }

  // ---------- The whole way ----------

  /** Through Arrow and back: the descriptor that the reader reports for a written column. */
  function Back(d: Descriptor): Option<Descriptor> {
    var arrow := ToArrow(d);
    if arrow.None? then None else FromArrow(arrow.value)
  }

  function BackField(f: DescriptorField): Option<DescriptorField> {
    var arrow := ToArrowField(f);
    if arrow.None? then None else FromArrowField(arrow.value)
  }

  function BackFields(fields: seq<DescriptorField>): Option<seq<DescriptorField>> {
    var arrow := ToArrowFields(fields);
    if arrow.None? then None else FromArrowFields(arrow.value)
  }

  /** Encode, cross the boundary, to Arrow, from Arrow, decode. */
  function RoundTrip(t: ElixirType): Option<ElixirType> {
    var d := EncodeType(t);
    if !Fits(d) then None
    else
      var back := Back(d);
      if back.None? then None else DecodeType(back.value)
  }

  predicate Nested(t: ElixirType) {
    t.EList? || t.ELargeList? || t.EFixedList? || t.EStruct?
  }

  /** The types whose numbers every stage admits: known widths, positive lengths, and native integer ranges. */
  predicate Supported(t: ElixirType)
    decreases t
  {
    match t
    case EInteger(bits, _) => bits in {8, 16, 32, 64}
    case EFloat(bits) => bits in {32, 64}
    case EFixedBinary(length) => 0 < length <= 0x7FFF_FFFF
    case ETime(unit, bits) => (bits == 32 && unit in {Second, Millisecond}) || (bits == 64 && unit in {Microsecond,
        Nanosecond})
    case EDecimal(bits, precision, scale) =>
      bits in {32, 64, 128, 256} && 0 < precision <= 0xFF && -0x80 <= scale <= 0x7F
    case EList(item) => Supported(item.valueType)
    case ELargeList(item) => Supported(item.valueType)
    case EFixedList(item, length) => Supported(item.valueType) && 0 < length <= 0x7FFF_FFFF
    case EStruct(fields) => AllSupported(fields)
    case _ => true
  }

  predicate AllSupported(fields: seq<ElixirField>)
    decreases fields
  {
    fields == [] || (Supported(fields[0].valueType) && AllSupported(fields[1..]))
  }

  // Arrow either keeps a descriptor or refuses it.

  /** A leaf with parameters, or one of the plain ones. */
  predicate Sized(t: ElixirType) {
    t.EInteger? || t.EFloat? || t.EFixedBinary? || t.ETime? || t.EDecimal?
  }

  lemma PlainKept(t: ElixirType)
    requires !Nested(t) && !Sized(t)
    ensures Back(EncodeType(t)) == Some(EncodeType(t))
  {
    hide IntegerType, DecimalType, TimeType, ToArrowField, FromArrowField, EncodeField;
  }

  lemma SizedKept(t: ElixirType)
    requires Sized(t)
    ensures var d := EncodeType(t); Back(d) == None || Back(d) == Some(d)
    ensures Supported(t) ==> Back(EncodeType(t)).Some?
  {
    match t {
      case EInteger(bits, signed) =>
        IntegerKept(bits, signed);
        hide Back, ToArrow, FromArrow;
      case EDecimal(bits, precision, scale) =>
        DecimalKept(bits, precision, scale);
        hide Back, ToArrow, FromArrow;
      case ETime(unit, bits) => TimeKept(unit, bits);
        hide Back, ToArrow, FromArrow;
      case _ =>
        hide IntegerType, DecimalType, TimeType, ToArrowField, FromArrowField, EncodeField;
    }
  }

  lemma TimeKept(unit: TimeUnit, bits: int)
    ensures var d := EncodeType(ETime(unit, bits)); Back(d) == if Supported(ETime(unit, bits)) then Some(d) else None
  {
    hide DecimalType, IntegerType, ToArrowField, FromArrowField, EncodeField;
  }

  lemma IntegerKept(bits: int, signed: bool)
    ensures Back(EncodeType(EInteger(bits, signed)))
         == if bits in {8, 16, 32, 64} then Some(IntegerDescriptor(bits, signed)) else None
    ensures EncodeType(EInteger(bits, signed)) == IntegerDescriptor(bits, signed)
  {
    hide TimeType, DecimalType, ToArrowField, FromArrowField, EncodeField;
  }

  lemma DecimalKept(bits: int, precision: int, scale: int)
    ensures Back(EncodeType(EDecimal(bits, precision, scale)))
         == if bits in {32, 64, 128, 256} then Some(DecimalDescriptor(bits, precision, scale)) else None
    ensures EncodeType(EDecimal(bits, precision, scale)) == DecimalDescriptor(bits, precision, scale)
  {
    hide TimeType, IntegerType, ToArrowField, FromArrowField, EncodeField;
  }

  lemma ListKept(t: ElixirType, item: DescriptorField)
    requires t.EList? || t.ELargeList? || t.EFixedList?
    requires item == EncodeField(t.item)
    ensures var d := EncodeType(t);
            Back(d) == if BackField(item).None? || (t.EFixedList? && t.length <= 0) then None
                       else Some(d.(children := [BackField(item).value]))
  {
    hide IntegerType, DecimalType, TimeType, EncodeField, ToArrowField, FromArrowField;
  }

  lemma {:induction false} Kept(t: ElixirType)
    ensures var d := EncodeType(t); Back(d) == None || Back(d) == Some(d)
    ensures Supported(t) ==> Back(EncodeType(t)).Some?
    decreases t
  {
    hide Back, ToArrow, FromArrow, ToArrowField, FromArrowField, BackField;
    if t.EStruct? {
      FieldsKept(t.fields);
      StructKept(t);
    } else if Nested(t) {
      FieldKept(t.item);
      ListKept(t, EncodeField(t.item));
    } else if Sized(t) {
      SizedKept(t);
    } else {
      PlainKept(t);
    }
  }

  lemma StructKept(t: ElixirType)
    requires t.EStruct?
    ensures var d := EncodeType(t);
            Back(d) == if BackFields(d.children).None? then None else Some(d.(children := BackFields(d.children).value))
  {
    hide IntegerType, DecimalType, TimeType, EncodeField, EncodeFields, ToArrowField, FromArrowField, ToArrowFields,
        FromArrowFields;
  }

  lemma {:induction false} FieldKept(field: ElixirField)
    ensures var f := EncodeField(field); BackField(f) == None || BackField(f) == Some(f)
    ensures Supported(field.valueType) ==> BackField(EncodeField(field)).Some?
    decreases field
  {
    Kept(field.valueType);
    hide ToArrow, FromArrow, Supported, EncodeType;
  }

  lemma {:induction false} FieldsKept(fields: seq<ElixirField>)
    ensures var ds := EncodeFields(fields); BackFields(ds) == None || BackFields(ds) == Some(ds)
    ensures AllSupported(fields) ==> BackFields(EncodeFields(fields)).Some?
    decreases fields
  {
    if fields != [] {
      FieldKept(fields[0]);
      FieldsKept(fields[1..]);
      hide Back, ToArrow, FromArrow, Supported, EncodeType, EncodeField, ToArrowField, FromArrowField;
      var ds := EncodeFields(fields);
      assert ds[1..] == EncodeFields(fields[1..]);
      var arrow := ToArrowFields(ds);
      if arrow.Some? {
        assert arrow.value[0] == ToArrowField(ds[0]).value && arrow.value[1..] == ToArrowFields(ds[1..]).value;
      }
    }
  }

  // Decoding undoes encoding, and refuses the rest.

  lemma LeafDecoded(t: ElixirType)
    requires !Nested(t)
    requires Fits(EncodeType(t))
    ensures DecodeType(EncodeType(t)) == if Supported(t) then Some(t) else None
  {
    hide EncodeField, DecodeField, DecodeFields, EncodeFields;
  }

  lemma ListDecoded(t: ElixirType)
    requires t.EList? || t.ELargeList? || t.EFixedList?
    ensures var item := DecodeField(EncodeField(t.item));
            DecodeType(EncodeType(t)) == if item.None? || (t.EFixedList? && t.length <= 0) then None
                else Some(t.(item := item.value))
  {
    hide EncodeField, DecodeField, DecodeFields, EncodeFields;
  }

  lemma {:induction false} Decoded(t: ElixirType)
    requires Fits(EncodeType(t))
    ensures DecodeType(EncodeType(t)) == if Supported(t) then Some(t) else None
    decreases t
  {
    if t.EStruct? {
      FieldsDecoded(t.fields);
      hide EncodeField, DecodeField, DecodeFields, EncodeFields, Supported;
    } else if Nested(t) {
      assert Fits(EncodeType(t).children[0].dataType);
      FieldDecoded(t.item);
      ListDecoded(t);
      hide DecodeType, DecodeField, DecodeFields, EncodeFields;
    } else {
      LeafDecoded(t);
    }
  }

  lemma {:induction false} FieldDecoded(field: ElixirField)
    requires Fits(EncodeType(field.valueType))
    ensures DecodeField(EncodeField(field)) == if Supported(field.valueType) then Some(field) else None
    decreases field
  {
    Decoded(field.valueType);
    hide DecodeType, Supported, EncodeType, Fits;
  }

  lemma {:induction false} FieldsDecoded(fields: seq<ElixirField>)
    requires forall i :: 0 <= i < |EncodeFields(fields)| ==> Fits(EncodeFields(fields)[i].dataType)
    ensures DecodeFields(EncodeFields(fields)) == if AllSupported(fields) then Some(fields) else None
    decreases fields
  {
    if fields != [] {
      var ds := EncodeFields(fields);
      assert ds[0] == EncodeField(fields[0]) && ds[1..] == EncodeFields(fields[1..]);
      assert Fits(ds[0].dataType) && forall i :: 0 <= i < |ds[1..]| ==> ds[1..][i] == ds[i + 1];
      FieldDecoded(fields[0]);
      FieldsDecoded(fields[1..]);
      hide DecodeType, EncodeType, EncodeField, DecodeField, Supported, Fits;
      assert fields == [fields[0]] + fields[1..];
    }
  }

  lemma {:induction false} SupportedFits(t: ElixirType)
    requires Supported(t)
    ensures Fits(EncodeType(t))
    decreases t
  {
    if t.EStruct? {
      AllSupportedFit(t.fields);
    } else if Nested(t) {
      SupportedFits(t.item.valueType);
    }
  }

  lemma {:induction false} AllSupportedFit(fields: seq<ElixirField>)
    requires AllSupported(fields)
    ensures forall i :: 0 <= i < |EncodeFields(fields)| ==> Fits(EncodeFields(fields)[i].dataType)
    decreases fields
  {
    if fields != [] {
      SupportedFits(fields[0].valueType);
      AllSupportedFit(fields[1..]);
      hide EncodeType, Supported, Fits;
      var ds := EncodeFields(fields);
      assert forall i :: 0 < i < |ds| ==> ds[i] == EncodeFields(fields[1..])[i - 1];
    }
  }

  /**
   The descriptors survive the whole way exactly for the supported types: those come
   back unchanged, and every other type is refused at some stage rather than changed.
   */
  lemma DescriptorsSurvive(t: ElixirType)
    ensures RoundTrip(t) == if Supported(t) then Some(t) else None
  {
    hide EncodeType, Supported, Fits, Back, DecodeType;
    Kept(t);
    if Supported(t) {
      SupportedFits(t);
    }
    if Fits(EncodeType(t)) {
      Decoded(t);
    }
  }
}
