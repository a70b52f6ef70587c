/**
  The two recursive mappers between ABI-typed Go values and JSON values (internal/eth/txn.go): `mapOutput` turns a
  typed value into JSON, `generateTypedArg` turns JSON back into a typed value.

  Go types built by reflection are values of `GoType`; a Go panic is an outcome of its own.
 */
module AbiMapping {
  import opened Options
  import opened Numerals
  import opened Rounding

  datatype Field = Field(name: string, t: AbiType)

  datatype AbiType =
    | IntType(bits: nat)
    | UintType(bits: nat)
    | BoolType
    | StringType
    | AddressType
    | BytesType
    | FixedBytesType(size: nat)
    | SliceType(elem: AbiType)
    | ArrayType(elem: AbiType, size: nat)
    | TupleType(fields: seq<Field>)
    | OtherType

  datatype GoField = GoField(name: string, t: GoType)

  datatype GoType =
    | GoInt(bits: nat)
    | GoUint(bits: nat)
    | GoBig
    | GoBool
    | GoString
    | GoAddress
    | GoSlice(elem: GoType)
    | GoArray(elem: GoType, size: nat)
    | GoStruct(fields: seq<GoField>)

  datatype GoValue =
    | IntV(bits: nat, i: int)
    | UintV(bits: nat, i: int)
    | BigV(i: int)
    | BoolV(b: bool)
    | StringV(s: string)
    | AddressV(bytes: seq<Byte>)
    | SliceV(elem: GoType, vals: seq<GoValue>)
    | ArrayV(elem: GoType, vals: seq<GoValue>)
    | StructV(fields: seq<GoField>, vals: seq<GoValue>)

  datatype Json =
    | JNull
    | JBool(b: bool)
    | JNumber(r: real)
    | JString(s: string)
    | JArray(items: seq<Json>)
    | JObject(members: map<string, Json>)

  /** The dynamic type of a value. */
  function TypeOf(v: GoValue): GoType {
    match v
    case IntV(bits, _) => GoInt(bits)
    case UintV(bits, _) => GoUint(bits)
    case BigV(_) => GoBig
    case BoolV(_) => GoBool
    case StringV(_) => GoString
    case AddressV(_) => GoAddress
    case SliceV(elem, _) => GoSlice(elem)
    case ArrayV(elem, vals) => GoArray(elem, |vals|)
    case StructV(fields, _) => GoStruct(fields)
  }

  predicate NativeWidth(bits: nat) {
    bits == 8 || bits == 16 || bits == 32 || bits == 64
  }

  /** `GetType` of an ABI type. Integers that are not exactly a machine width are big integers. */
  function GoTypeOf(t: AbiType): GoType {
    match t
    case IntType(bits) => if NativeWidth(bits) then GoInt(bits) else GoBig
    case UintType(bits) => if NativeWidth(bits) then GoUint(bits) else GoBig
    case BoolType => GoBool
    case StringType => GoString
    case AddressType => GoAddress
    case BytesType => GoSlice(GoUint(8))
    case FixedBytesType(size) => GoArray(GoUint(8), size)
    case SliceType(elem) => GoSlice(GoTypeOf(elem))
    case ArrayType(elem, size) => GoArray(GoTypeOf(elem), size)
    case TupleType(fields) => GoStruct(GoFieldsOf(fields))
    case OtherType => GoArray(GoUint(8), 24)
  }

  function GoFieldsOf(fields: seq<Field>): (r: seq<GoField>)
    ensures |r| == |fields|
  {
    if fields == [] then []
    else
      var last := |fields| - 1;
      GoFieldsOf(fields[..last]) + [GoField(fields[last].name, GoTypeOf(fields[last].t))]
  }

  // ------------------------------------------------------------------ machine integers

  function Half(bits: nat): int {
    if bits == 8 then 0x80 else if bits == 16 then 0x8000 else if bits == 32 then 0x8000_0000 else TwoTo63
  }

  predicate InSigned(i: int, bits: nat) {
    -Half(bits) <= i < Half(bits)
  }

  predicate InUnsigned(i: int, bits: nat) {
    0 <= i < 2 * Half(bits)
  }

  /** A Go conversion to a narrower integer keeps the low bits. */
  function WrapSigned(i: int, bits: nat): int {
    (i + Half(bits)) % (2 * Half(bits)) - Half(bits)
  }

  function WrapUnsigned(i: int, bits: nat): int {
    i % (2 * Half(bits))
  }

  /** Out-of-range float conversions are implementation-specific in Go; these are the amd64 results. */
  function FloatToInt64(r: real): int {
    if FitsInt64(Truncate(r)) then Truncate(r) else -TwoTo63
  }

  function FloatToUint64(r: real): int {
    if FitsUint64(Truncate(r)) then Truncate(r)
    else if FitsInt64(Truncate(r)) then WrapUnsigned(Truncate(r), 64)
    else TwoTo63
  }

  // ------------------------------------------------------------------ typed value to JSON

  datatype OutputError = MismatchedType | MismatchedTuple | MismatchedFieldCount | UnknownType

  function ByteOf(v: GoValue): Byte {
    if v.UintV? then v.i % 256 else 0
  }

  function BytesOf(vals: seq<GoValue>): seq<Byte> {
    seq(|vals|, i requires 0 <= i < |vals| => ByteOf(vals[i]))
  }

  function ValuesOf(bytes: seq<Byte>): seq<GoValue> {
    seq(|bytes|, i requires 0 <= i < |bytes| => UintV(8, bytes[i]))
  }

  function MapOutput(t: AbiType, v: GoValue): Result<Json, OutputError>
    decreases t, 0
  {
    match t
    case IntType(_) => MapNumber(v)
    case UintType(_) => MapNumber(v)
    case BoolType => if v.BoolV? then Ok(JBool(v.b)) else Err(MismatchedType)
    case StringType => if v.StringV? then Ok(JString(v.s)) else Err(MismatchedType)
    case BytesType => MapBytes(v)
    case FixedBytesType(_) => MapBytes(v)
    case AddressType => MapBytes(v)
    case SliceType(elem) => if v.SliceV? then MapItems(elem, v.vals) else Err(MismatchedType)
    case ArrayType(elem, _) => if v.SliceV? then MapItems(elem, v.vals) else Err(MismatchedType)
    case TupleType(fields) =>
      if !v.StructV? || v.fields != GoFieldsOf(fields) then Err(MismatchedTuple)
      else if |v.vals| != |fields| then Err(MismatchedFieldCount)
      else
        (match MapMembers(fields, v.vals)
         case Err(e) => Err(e)
         case Ok(members) => Ok(JObject(members)))
    case OtherType => Err(UnknownType)
  }

  function MapNumber(v: GoValue): Result<Json, OutputError> {
    if v.BigV? || v.IntV? || v.UintV? then Ok(JString(Format(v.i))) else Err(MismatchedType)
  }

  function MapBytes(v: GoValue): Result<Json, OutputError> {
    if v.AddressV? then Ok(JString(HexEncode(v.bytes)))
    else if (v.SliceV? || v.ArrayV?) && v.elem == GoUint(8) then Ok(JString(HexEncode(BytesOf(v.vals))))
    else Err(MismatchedType)
  }

  function MapItems(elem: AbiType, vals: seq<GoValue>): Result<Json, OutputError>
    decreases elem, |vals| + 1
  {
    match MapEach(elem, vals)
    case Err(e) => Err(e)
    case Ok(items) => Ok(JArray(items))
  }

  function MapEach(elem: AbiType, vals: seq<GoValue>): Result<seq<Json>, OutputError>
    decreases elem, |vals|
  {
    if vals == [] then Ok([])
    else
      var last := |vals| - 1;
      match MapEach(elem, vals[..last])
      case Err(e) => Err(e)
      case Ok(items) =>
        match MapOutput(elem, vals[last])
        case Err(e) => Err(e)
        case Ok(item) => Ok(items + [item])
  }

  /** A field of the same name as an earlier one overwrites it. */
  function MapMembers(fields: seq<Field>, vals: seq<GoValue>): Result<map<string, Json>, OutputError>
    requires |fields| == |vals|
    decreases fields
  {
    if fields == [] then Ok(map[])
    else
      var last := |fields| - 1;
      match MapMembers(fields[..last], vals[..last])
      case Err(e) => Err(e)
      case Ok(members) =>
        match MapOutput(fields[last].t, vals[last])
        case Err(e) => Err(e)
        case Ok(member) => Ok(members[fields[last].name := member])
  }

  // ------------------------------------------------------------------ JSON to typed value

  datatype InputError =
    | BadNull | BadNumber | BadJsonType | BadAddress | BadByte | NotAssignable | NotSupported

  datatype Outcome<+T> = Value(value: T) | Error(error: InputError) | Panic

  function GetInteger(j: Json): Outcome<int> {
    match j
    case JString(s) => (match ParseInt64(s) case None => Error(BadNumber) case Some(n) => Value(n))
    case JNumber(r) => Value(FloatToInt64(r))
    case _ => Error(BadJsonType)
  }

  function GetUnsignedInteger(j: Json): Outcome<int> {
    match j
    case JString(s) => (match ParseUint64(s) case None => Error(BadNumber) case Some(n) => Value(n))
    case JNumber(r) => Value(FloatToUint64(r))
    case _ => Error(BadJsonType)
  }

  function GetBigInteger(j: Json): Outcome<GoValue> {
    match j
    case JString(s) => (match ParseSigned(s) case None => Error(BadNumber) case Some(n) => Value(BigV(n)))
    case JNumber(r) => Value(BigV(FloatToInt64(r)))
    case _ => Error(BadJsonType)
  }

  /** Widths up to 64 bits are first read as a machine integer, even when the result is a big integer. */
  function GenerateInteger(signed: bool, bits: nat, j: Json): Outcome<GoValue> {
    if bits <= 64 then
      match if signed then GetInteger(j) else GetUnsignedInteger(j)
      case Error(e) => Error(e)
      case Panic => Panic
      case Value(n) =>
        if !NativeWidth(bits) then GetBigInteger(j)
        else if signed then Value(IntV(bits, WrapSigned(n, bits)))
        else Value(UintV(bits, WrapUnsigned(n, bits)))
    else GetBigInteger(j)
  }

  function ToLower(s: string): string {
    seq(|s|, i requires 0 <= i < |s| =>
      if 'A' <= s[i] <= 'Z' then (s[i] as int - 'A' as int + 'a' as int) as char else s[i])
  }

  function NumbersToBytes(items: seq<Json>): Outcome<seq<Byte>> {
    if items == [] then Value([])
    else
      var last := |items| - 1;
      match NumbersToBytes(items[..last])
      case Error(e) => Error(e)
      case Panic => Panic
      case Value(bytes) =>
        if !items[last].JNumber? then Error(BadJsonType)
        else if items[last].r > 255.0 || items[last].r < 0.0 then Error(BadByte)
        else Value(bytes + [items[last].r.Floor])
  }

  function GenerateBytes(fixed: bool, j: Json): Outcome<GoValue> {
    var bytes :=
      match j
      case JArray(items) => NumbersToBytes(items)
      case JString(s) => Value(FromHex(s))
      case _ => Error(BadJsonType);
    match bytes
    case Error(e) => Error(e)
    case Panic => Panic
    case Value(b) => Value(if fixed then ArrayV(GoUint(8), ValuesOf(b)) else SliceV(GoUint(8), ValuesOf(b)))
  }

  function Generate(t: AbiType, j: Json): Outcome<GoValue>
    decreases t, 0
  {
    if j.JNull? then Error(BadNull)
    else
      match t
      case IntType(bits) => GenerateInteger(true, bits, j)
      case UintType(bits) => GenerateInteger(false, bits, j)
      case BoolType =>
        if j.JString? then Value(BoolV(ToLower(j.s) == "true"))
        else if j.JBool? then Value(BoolV(j.b))
        else Error(BadJsonType)
      case StringType => if j.JString? then Value(StringV(j.s)) else Error(BadJsonType)
      case AddressType =>
        if !j.JString? then Error(BadJsonType)
        else if !IsHexAddress(j.s) then Error(BadAddress)
        else Value(AddressV(HexToAddress(j.s)))
      case BytesType => GenerateBytes(false, j)
      case FixedBytesType(_) => GenerateBytes(true, j)
      case SliceType(elem) =>
        if !j.JArray? then Error(BadJsonType)
        else
          (match GenerateEach(elem, j.items, None)
           case Error(e) => Error(e)
           case Panic => Panic
           case Value(vals) => Value(SliceV(GoTypeOf(elem), vals)))
      case ArrayType(elem, size) =>
        if !j.JArray? then Error(BadJsonType)
        else
          (match GenerateEach(elem, j.items, Some(size))
           case Error(e) => Error(e)
           case Panic => Panic
           case Value(vals) =>
             Value(ArrayV(GoTypeOf(elem), vals + Zeros(GoTypeOf(elem), Remaining(size, |vals|)))))
      case TupleType(fields) =>
        if !j.JObject? then Error(BadJsonType)
        else
          (match GenerateFields(fields, j.members)
           case Error(e) => Error(e)
           case Panic => Panic
           case Value(vals) => Value(StructV(GoFieldsOf(fields), vals)))
      case OtherType => Error(NotSupported)
  }

  function Remaining(size: nat, filled: nat): nat {
    if filled < size then size - filled else 0
  }

  /** Storing an element of another Go type, or past the end of a fixed-length array, panics. */
  function GenerateEach(elem: AbiType, items: seq<Json>, size: Option<nat>): Outcome<seq<GoValue>>
    decreases elem, |items| + 1
  {
    if items == [] then Value([])
    else
      var last := |items| - 1;
      match GenerateEach(elem, items[..last], size)
      case Error(e) => Error(e)
      case Panic => Panic
      case Value(vals) =>
        match Generate(elem, items[last])
        case Error(e) => Error(e)
        case Panic => Panic
        case Value(v) =>
          if (size.Some? && last >= size.value) || TypeOf(v) != GoTypeOf(elem) then Panic
          else Value(vals + [v])
  }

  function GenerateFields(fields: seq<Field>, members: map<string, Json>): Outcome<seq<GoValue>>
    decreases fields
  {
    if fields == [] then Value([])
    else
      var last := |fields| - 1;
      match GenerateFields(fields[..last], members)
      case Error(e) => Error(e)
      case Panic => Panic
      case Value(vals) =>
        if fields[last].name !in members then Error(NotAssignable)
        else
          match Generate(fields[last].t, members[fields[last].name])
          case Error(e) => Error(e)
          case Panic => Panic
          case Value(v) => if TypeOf(v) != GoTypeOf(fields[last].t) then Error(NotAssignable) else Value(vals + [v])
  }

  function Zero(g: GoType): GoValue {
    match g
    case GoInt(bits) => IntV(bits, 0)
    case GoUint(bits) => UintV(bits, 0)
    case GoBig => BigV(0)
    case GoBool => BoolV(false)
    case GoString => StringV("")
    case GoAddress => AddressV(seq(20, _ => 0 as Byte))
    case GoSlice(elem) => SliceV(elem, [])
    case GoArray(elem, size) => ArrayV(elem, seq(size, _ => Zero(elem)))
    case GoStruct(fields) => StructV(fields, ZeroFields(fields))
  }

  function Zeros(g: GoType, n: nat): seq<GoValue> {
    seq(n, _ => Zero(g))
  }

  function ZeroFields(fields: seq<GoField>): seq<GoValue> {
    if fields == [] then []
    else ZeroFields(fields[..|fields| - 1]) + [Zero(fields[|fields| - 1].t)]
  }

  // ------------------------------------------------------------------ values of a type

  predicate ByteValues(vals: seq<GoValue>) {
    forall i :: 0 <= i < |vals| ==> vals[i].UintV? && vals[i].bits == 8 && InUnsigned(vals[i].i, 8)
  }

  /** The values an ABI type has. Odd widths up to 64 bits are given the whole machine range. */
  predicate WellTyped(t: AbiType, v: GoValue)
    decreases t, 0
  {
    match t
    case IntType(bits) =>
      if NativeWidth(bits) then v.IntV? && v.bits == bits && InSigned(v.i, bits)
      else v.BigV? && (bits <= 64 ==> FitsInt64(v.i))
    case UintType(bits) =>
      if NativeWidth(bits) then v.UintV? && v.bits == bits && InUnsigned(v.i, bits)
      else v.BigV? && (bits <= 64 ==> FitsUint64(v.i))
    case BoolType => v.BoolV?
    case StringType => v.StringV?
    case AddressType => v.AddressV? && |v.bytes| == 20
    case BytesType => v.SliceV? && v.elem == GoUint(8) && ByteValues(v.vals)
    case FixedBytesType(size) => v.ArrayV? && v.elem == GoUint(8) && ByteValues(v.vals) && |v.vals| == size
    case SliceType(elem) => v.SliceV? && v.elem == GoTypeOf(elem) && AllWellTyped(elem, v.vals)
    case ArrayType(elem, size) =>
      v.ArrayV? && v.elem == GoTypeOf(elem) && |v.vals| == size && AllWellTyped(elem, v.vals)
    case TupleType(fields) => v.StructV? && v.fields == GoFieldsOf(fields) && FieldsWellTyped(fields, v.vals)
    case OtherType => false
  }

  predicate AllWellTyped(elem: AbiType, vals: seq<GoValue>)
    decreases elem, |vals| + 1
  {
    vals != [] ==> AllWellTyped(elem, vals[..|vals| - 1]) && WellTyped(elem, vals[|vals| - 1])
  }

  predicate FieldsWellTyped(fields: seq<Field>, vals: seq<GoValue>)
    decreases fields
  {
    && |fields| == |vals|
    && (fields != [] ==>
          var last := |fields| - 1;
          FieldsWellTyped(fields[..last], vals[..last]) && WellTyped(fields[last].t, vals[last]))
  }

  /** No fixed-length array (other than fixed bytes) occurs anywhere in the value. */
  predicate ArrayFree(t: AbiType, v: GoValue)
    requires WellTyped(t, v)
    decreases t, 0
  {
    match t
    case ArrayType(_, _) => false
    case SliceType(elem) => AllArrayFree(elem, v.vals)
    case TupleType(fields) => FieldsArrayFree(fields, v.vals)
    case _ => true
  }

  predicate AllArrayFree(elem: AbiType, vals: seq<GoValue>)
    requires AllWellTyped(elem, vals)
    decreases elem, |vals| + 1
  {
    vals != [] ==> AllArrayFree(elem, vals[..|vals| - 1]) && ArrayFree(elem, vals[|vals| - 1])
  }

  predicate FieldsArrayFree(fields: seq<Field>, vals: seq<GoValue>)
    requires FieldsWellTyped(fields, vals)
    decreases fields
  {
    fields != [] ==>
      var last := |fields| - 1;
      FieldsArrayFree(fields[..last], vals[..last]) && ArrayFree(fields[last].t, vals[last])
  }

  /** Within each tuple, at every level, the field names differ. */
  predicate DistinctNames(t: AbiType)
    decreases t, 0
  {
    match t
    case SliceType(elem) => DistinctNames(elem)
    case ArrayType(elem, _) => DistinctNames(elem)
    case TupleType(fields) => FieldNamesDistinct(fields)
    case _ => true
  }

  predicate FieldNamesDistinct(fields: seq<Field>)
    decreases fields
  {
    fields != [] ==>
      var last := |fields| - 1;
      && FieldNamesDistinct(fields[..last])
      && DistinctNames(fields[last].t)
      && forall i :: 0 <= i < last ==> fields[i].name != fields[last].name
  }

  // ------------------------------------------------------------------ the round trip

  lemma TypedValueHasItsType(t: AbiType, v: GoValue)
    requires WellTyped(t, v)
    ensures TypeOf(v) == GoTypeOf(t)
  {
  }

  lemma BytesRoundTrip(vals: seq<GoValue>)
    requires ByteValues(vals)
    ensures ValuesOf(BytesOf(vals)) == vals
    ensures ValuesOf(FromHex(HexEncode(BytesOf(vals)))) == vals
  {
    var back := ValuesOf(BytesOf(vals));
    forall i | 0 <= i < |vals| ensures back[i] == vals[i] {
      assert vals[i] == UintV(8, vals[i].i);
    }
    assert back == vals;
    FromHexOfEncode(BytesOf(vals));
  }

  lemma WrapInRange(i: int, bits: nat)
    ensures InSigned(i, bits) ==> WrapSigned(i, bits) == i
    ensures InUnsigned(i, bits) ==> WrapUnsigned(i, bits) == i
    ensures InSigned(WrapSigned(i, bits), bits) && InUnsigned(WrapUnsigned(i, bits), bits)
  {
  }

  lemma IntegerRoundTrip(signed: bool, bits: nat, v: GoValue)
    requires WellTyped(if signed then IntType(bits) else UintType(bits), v)
    ensures GenerateInteger(signed, bits, JString(Format(v.i))) == Value(v)
  {
    IntegerTextParses(v.i);
    if NativeWidth(bits) {
      WrapInRange(v.i, bits);
      NativeFits(v.i, bits);
    }
  }

  lemma IntegerTextParses(i: int)
    ensures FitsInt64(i) ==> GetInteger(JString(Format(i))) == Value(i)
    ensures FitsUint64(i) ==> GetUnsignedInteger(JString(Format(i))) == Value(i)
    ensures GetBigInteger(JString(Format(i))) == Value(BigV(i))
  {
    ParseOfFormat(i);
  }

  lemma NativeFits(i: int, bits: nat)
    requires NativeWidth(bits)
    ensures InSigned(i, bits) ==> FitsInt64(i)
    ensures InUnsigned(i, bits) ==> FitsUint64(i)
  {
  }

  /**
    For every type with distinct field names and every value of it, `mapOutput` succeeds exactly when no
    fixed-length array occurs in the value, and then `generateTypedArg` gives the original value back.
   */
  lemma {:induction false} RoundTrip(t: AbiType, v: GoValue)
    requires WellTyped(t, v) && DistinctNames(t)
    ensures MapOutput(t, v).Ok? <==> ArrayFree(t, v)
    ensures ArrayFree(t, v) ==> Generate(t, MapOutput(t, v).value) == Value(v)
    decreases t, 0
  {
    match t
    case IntType(bits) => IntegerRoundTrip(true, bits, v);
    case UintType(bits) => IntegerRoundTrip(false, bits, v);
    case BoolType =>
    case StringType =>
    case AddressType => AddressOfEncode(v.bytes);
    case BytesType => BytesRoundTrip(v.vals);
    case FixedBytesType(_) => BytesRoundTrip(v.vals);
    case SliceType(elem) => ItemsRoundTrip(elem, v.vals);
    case ArrayType(_, _) =>
    case TupleType(fields) => FieldsRoundTrip(fields, v.vals);
  }

  lemma {:induction false} ItemsRoundTrip(elem: AbiType, vals: seq<GoValue>)
    requires AllWellTyped(elem, vals) && DistinctNames(elem)
    ensures MapEach(elem, vals).Ok? <==> AllArrayFree(elem, vals)
    ensures AllArrayFree(elem, vals) ==> GenerateEach(elem, MapEach(elem, vals).value, None) == Value(vals)
    decreases elem, |vals| + 1
  {
    if vals != [] {
      var last := |vals| - 1;
      ItemsRoundTrip(elem, vals[..last]);
      RoundTrip(elem, vals[last]);
      if AllArrayFree(elem, vals) {
        TypedValueHasItsType(elem, vals[last]);
        ItemAppended(elem, MapEach(elem, vals[..last]).value, MapOutput(elem, vals[last]).value, vals);
      }
    }
  }

  lemma ItemAppended(elem: AbiType, items: seq<Json>, item: Json, vals: seq<GoValue>)
    requires vals != [] && TypeOf(vals[|vals| - 1]) == GoTypeOf(elem)
    requires GenerateEach(elem, items, None) == Value(vals[..|vals| - 1])
    requires Generate(elem, item) == Value(vals[|vals| - 1])
    ensures GenerateEach(elem, items + [item], None) == Value(vals)
  {
    Chopped(items, item);
    Rejoined(vals);
  }

  lemma Chopped(items: seq<Json>, item: Json)
    ensures (items + [item])[..|items + [item]| - 1] == items
  {
  }

  lemma Rejoined(vals: seq<GoValue>)
    requires vals != []
    ensures vals[..|vals| - 1] + [vals[|vals| - 1]] == vals
  {
  }

  lemma {:induction false} FieldsRoundTrip(fields: seq<Field>, vals: seq<GoValue>)
    requires FieldsWellTyped(fields, vals) && FieldNamesDistinct(fields)
    ensures MapMembers(fields, vals).Ok? <==> FieldsArrayFree(fields, vals)
    ensures FieldsArrayFree(fields, vals) ==> GenerateFields(fields, MapMembers(fields, vals).value) == Value(vals)
    decreases fields
  {
    if fields != [] {
      var last := |fields| - 1;
      FieldsRoundTrip(fields[..last], vals[..last]);
      RoundTrip(fields[last].t, vals[last]);
      TypedValueHasItsType(fields[last].t, vals[last]);
      if FieldsArrayFree(fields, vals) {
        var earlier := MapMembers(fields[..last], vals[..last]).value;
        var member := MapOutput(fields[last].t, vals[last]).value;
        UnrelatedMember(fields[..last], earlier, fields[last].name, member);
        LastFieldGenerated(fields, earlier[fields[last].name := member], vals);
      }
    }
  }

  lemma LastFieldGenerated(fields: seq<Field>, members: map<string, Json>, vals: seq<GoValue>)
    requires fields != [] && vals != [] && fields[|fields| - 1].name in members
    requires GenerateFields(fields[..|fields| - 1], members) == Value(vals[..|vals| - 1])
    requires Generate(fields[|fields| - 1].t, members[fields[|fields| - 1].name]) == Value(vals[|vals| - 1])
    requires TypeOf(vals[|vals| - 1]) == GoTypeOf(fields[|fields| - 1].t)
    ensures GenerateFields(fields, members) == Value(vals)
  {
    Rejoined(vals);
  }

  /** A member with a new name does not disturb the fields already there. */
  lemma {:induction false} UnrelatedMember(fields: seq<Field>, members: map<string, Json>, name: string, member: Json)
    requires forall i :: 0 <= i < |fields| ==> fields[i].name != name
    ensures GenerateFields(fields, members[name := member]) == GenerateFields(fields, members)
    decreases |fields|
  {
    if fields != [] {
      UnrelatedMember(fields[..|fields| - 1], members, name, member);
    }
  }

  // ------------------------------------------------------------------ numbers that are not kept

  function IntegerType(signed: bool, bits: nat): AbiType {
    if signed then IntType(bits) else UintType(bits)
  }

  /** The number a JSON value stands for: a decimal text or a JSON number. */
  function NumberSent(j: Json): Option<real> {
    match j
    case JString(s) => (match ParseSigned(s) case None => None case Some(n) => Some(n as real))
    case JNumber(r) => Some(r)
    case _ => None
  }

  /** A text is accepted when it parses within 64 bits, or at all for wider types; a JSON number always is. */
  predicate AcceptsNumber(signed: bool, bits: nat, j: Json) {
    match j
    case JString(s) =>
      if bits > 64 then ParseSigned(s).Some?
      else if signed then ParseInt64(s).Some?
      else ParseUint64(s).Some?
    case JNumber(_) => true
    case _ => false
  }

  /** What a type can keep: native widths their range, other widths any text, and JSON numbers within an int64. */
  predicate Keeps(signed: bool, bits: nat, j: Json, i: int) {
    if NativeWidth(bits) then if signed then InSigned(i, bits) else InUnsigned(i, bits)
    else j.JString? || FitsInt64(i)
  }

  /**
    For every integer width, signed or not, and every JSON value: the number sent is accepted under the stated
    condition, and an accepted number is kept if and only if it is whole and within what the type can keep. Other
    numbers are silently changed: fractions are cut off and the rest wraps or saturates.
   */
  lemma NumberIsKeptIff(signed: bool, bits: nat, j: Json)
    requires !j.JNull?
    ensures Generate(IntegerType(signed, bits), j).Value? <==> AcceptsNumber(signed, bits, j)
    ensures AcceptsNumber(signed, bits, j) ==>
              var x := NumberSent(j);
              var v := Generate(IntegerType(signed, bits), j).value;
              && x.Some? && (v.IntV? || v.UintV? || v.BigV?)
              && (v.i as real == x.value <==>
                    x.value == x.value.Floor as real && Keeps(signed, bits, j, x.value.Floor))
  {
    match j
    case JString(s) =>
      if AcceptsNumber(signed, bits, j) {
        if bits <= 64 && !signed {
          UnsignedIsSigned(s);
        }
        WrapInRange(ParseSigned(s).value, bits);
      }
    case JNumber(r) =>
      WholeIsTruncated(r);
      WrapInRange(FloatToInt64(r), bits);
      WrapInRange(FloatToUint64(r), bits);
      if NativeWidth(bits) {
        NativeFits(r.Floor, bits);
      }
    case _ =>
  }

  /** A fraction is cut off, and a width that is not native has no range of its own. */
  lemma ChangedOrUnchecked()
    ensures Generate(IntType(8), JNumber(1.5)) == Value(IntV(8, 1))
    ensures Generate(IntType(8), JNumber(200.0)) == Value(IntV(8, -56))
    ensures Generate(UintType(24), JNumber(16777216.0)) == Value(BigV(16777216))
    ensures Generate(UintType(24), JNumber(-5.0)) == Value(BigV(-5))
  {
    assert (1.5).Floor == 1 && (200.0).Floor == 200 && (16777216.0).Floor == 16777216 && (5.0).Floor == 5;
  }
}
