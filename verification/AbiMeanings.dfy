/**
  What `generateTypedArg` and `mapOutput` (internal/eth/txn.go) come to for every type and every value, against
  relations that say it without computing it.
 */
module AbiMeanings {
  import opened Options
  import opened Numerals
  import opened Rounding
  import opened AbiMapping

  // ------------------------------------------------------------------ from JSON

  /** The zero value of a Go type, at every level. */
  predicate IsZero(v: GoValue)
    decreases v
  {
    match v
    case IntV(_, i) => i == 0
    case UintV(_, i) => i == 0
    case BigV(i) => i == 0
    case BoolV(b) => !b
    case StringV(s) => s == ""
    case AddressV(bytes) => |bytes| == 20 && forall i :: 0 <= i < 20 ==> bytes[i] == 0
    case SliceV(_, vals) => vals == []
    case ArrayV(elem, vals) => forall i :: 0 <= i < |vals| ==> IsZero(vals[i]) && TypeOf(vals[i]) == elem
    case StructV(fields, vals) =>
      |vals| == |fields| && forall i :: 0 <= i < |vals| ==> IsZero(vals[i]) && TypeOf(vals[i]) == fields[i].t
  }

  lemma {:induction false} ZeroIsZero(g: GoType)
    ensures IsZero(Zero(g)) && TypeOf(Zero(g)) == g
    decreases g, 0
  {
    match g
    case GoArray(elem, size) => ZeroIsZero(elem);
    case GoStruct(fields) => ZeroFieldsAreZero(fields);
    case _ =>
  }

  lemma {:induction false} ZeroFieldsAreZero(fields: seq<GoField>)
    ensures |ZeroFields(fields)| == |fields|
    ensures forall i :: 0 <= i < |fields| ==>
              IsZero(ZeroFields(fields)[i]) && TypeOf(ZeroFields(fields)[i]) == fields[i].t
    decreases fields
  {
    if fields != [] {
      var last := |fields| - 1;
      ZeroFieldsAreZero(fields[..last]);
      ZeroIsZero(fields[last].t);
    }
  }

  /** The low bits of `n`, read as a number of the type: it differs from `n` by whole multiples of the range. */
  ghost predicate LowBits(n: int, i: int, bits: nat, signed: bool) {
    && (exists q :: DiffersBy(n, i, q, 2 * Half(bits)))
    && if signed then -Half(bits) <= i < Half(bits) else 0 <= i < 2 * Half(bits)
  }

  predicate DiffersBy(n: int, i: int, q: int, m: int) {
    i == n + q * m
  }

  lemma Remainder(n: int, m: int)
    requires m > 0
    ensures DiffersBy(n, n % m, -(n / m), m) && 0 <= n % m < m
  {
  }

  lemma WrapIsLowBits(n: int, bits: nat)
    ensures LowBits(n, WrapSigned(n, bits), bits, true) && LowBits(n, WrapUnsigned(n, bits), bits, false)
  {
    var h := Half(bits);
    Remainder(n, 2 * h);
    Remainder(n + h, 2 * h);
    assert DiffersBy(n, WrapSigned(n, bits), -((n + h) / (2 * h)), 2 * h);
  }

  lemma SmallMultipleIsZero(q: int, m: int)
    requires m > 0 && -m < q * m < m
    ensures q == 0
  {
    if q >= 1 {
      assert q * m == m + (q - 1) * m;
      ProductIsPositive(q - 1, m);
    } else if q <= -1 {
      assert -q * m == m + (-q - 1) * m;
      ProductIsPositive(-q - 1, m);
    }
  }

  lemma ProductIsPositive(a: int, m: int)
    requires a >= 0 && m > 0
    ensures a * m >= 0
  {
  }

  lemma LowBitsAreUnique(n: int, i: int, j: int, bits: nat, signed: bool)
    requires LowBits(n, i, bits, signed) && LowBits(n, j, bits, signed)
    ensures i == j
  {
    var m := 2 * Half(bits);
    var q :| DiffersBy(n, i, q, m);
    var r :| DiffersBy(n, j, r, m);
    assert i - j == q * m - r * m == (q - r) * m;
    SmallMultipleIsZero(q - r, m);
  }

  /** The text reads "true", in any case. */
  predicate ReadsTrue(s: string) {
    && |s| == 4 && (s[0] == 't' || s[0] == 'T') && (s[1] == 'r' || s[1] == 'R')
    && (s[2] == 'u' || s[2] == 'U') && (s[3] == 'e' || s[3] == 'E')
  }

  lemma LowerTrue(s: string)
    ensures ToLower(s) == "true" <==> ReadsTrue(s)
  {
    var l := ToLower(s);
    assert |l| == |s|;
    assert forall i :: 0 <= i < |s| ==> (l[i] == 't' <==> s[i] == 't' || s[i] == 'T');
    assert forall i :: 0 <= i < |s| ==> (l[i] == 'r' <==> s[i] == 'r' || s[i] == 'R');
    assert forall i :: 0 <= i < |s| ==> (l[i] == 'u' <==> s[i] == 'u' || s[i] == 'U');
    assert forall i :: 0 <= i < |s| ==> (l[i] == 'e' <==> s[i] == 'e' || s[i] == 'E');
    if ReadsTrue(s) {
      assert l == "true";
    }
    if l == "true" {
      assert l[0] == 't' && l[1] == 'r' && l[2] == 'u' && l[3] == 'e';
    }
  }

  /** The bytes a JSON value stands for: whole parts of numbers from 0 to 255, one by one, or hex text. */
  predicate MeansBytes(j: Json, bytes: seq<Byte>) {
    match j
    case JArray(items) =>
      |bytes| == |items| && forall i :: 0 <= i < |items| ==> MeansByte(items[i], bytes[i])
    case JString(s) => bytes == FromHex(s)
    case _ => false
  }

  predicate MeansByte(j: Json, b: Byte) {
    j.JNumber? && 0.0 <= j.r <= 255.0 && b as real <= j.r < b as real + 1.0
  }

  lemma {:induction false} NumbersAreBytes(items: seq<Json>, bytes: seq<Byte>)
    ensures NumbersToBytes(items) == Value(bytes) <==>
            |bytes| == |items| && forall i :: 0 <= i < |items| ==> MeansByte(items[i], bytes[i])
    ensures !NumbersToBytes(items).Panic?
    decreases |items|
  {
    if items != [] {
      var last := |items| - 1;
      if |bytes| == |items| {
        NumbersAreBytes(items[..last], bytes[..last]);
        assert bytes == bytes[..last] + [bytes[last]];
        assert forall i :: 0 <= i < last ==> items[..last][i] == items[i] && bytes[..last][i] == bytes[i];
        ByteIsWholePart(items[last], bytes[last]);
      } else {
        NumbersKeepLength(items);
      }
      NumbersAreBytes(items[..last], []);
    }
  }

  lemma {:induction false} NumbersKeepLength(items: seq<Json>)
    ensures NumbersToBytes(items).Value? ==> |NumbersToBytes(items).value| == |items|
    decreases |items|
  {
    if items != [] {
      NumbersKeepLength(items[..|items| - 1]);
    }
  }

  lemma ByteIsWholePart(j: Json, b: Byte)
    ensures MeansByte(j, b) <==> j.JNumber? && !(j.r > 255.0 || j.r < 0.0) && j.r.Floor == b
  {
  }

  /** The machine integer that is read: a text says it, within 64 bits; a float is cut and converted. */
  ghost predicate MeansMachine(signed: bool, j: Json, n: int) {
    match j
    case JString(s) =>
      if signed then Says(s, n) && -TwoTo63 <= n < TwoTo63 else AllDigits(s) && n == Positional(s) && n < TwoTo64
    case JNumber(r) => exists t :: CutsTo(r, t) && n == Converted(signed, t)
    case _ => false
  }

  /** Go's conversion of a whole float to 64 bits, on amd64. */
  function Converted(signed: bool, t: int): int {
    if signed then if -TwoTo63 <= t < TwoTo63 then t else -TwoTo63
    else if 0 <= t < TwoTo64 then t else if -TwoTo63 <= t < 0 then t + TwoTo64 else TwoTo63
  }

  lemma MachineIsRead(signed: bool, j: Json, n: int)
    ensures (if signed then GetInteger(j) else GetUnsignedInteger(j)) == Value(n) <==> MeansMachine(signed, j, n)
    ensures !(if signed then GetInteger(j) else GetUnsignedInteger(j)).Panic?
  {
    match j
    case JString(s) => ReadersAreExact(s, n);
    case JNumber(r) =>
      TruncateCuts(r, Truncate(r));
      forall t | CutsTo(r, t) ensures t == Truncate(r) {
        TruncateCuts(r, t);
      }
    case _ =>
  }

  /** What the number sent comes to: the low bits for types of machine width, the number itself for the others. */
  ghost predicate MeansInteger(signed: bool, bits: nat, j: Json, v: GoValue) {
    && (bits <= 64 ==> exists n :: MeansMachine(signed, j, n))
    && if NativeWidth(bits) then
         && (if signed then v.IntV? && v.bits == bits else v.UintV? && v.bits == bits)
         && exists n :: MeansMachine(signed, j, n) && LowBits(n, v.i, bits, signed)
       else
         v.BigV? && if j.JString? then Says(j.s, v.i) else MeansMachine(true, j, v.i)
  }

  lemma IntegerIsRead(signed: bool, bits: nat, j: Json, v: GoValue)
    ensures GenerateInteger(signed, bits, j) == Value(v) <==> MeansInteger(signed, bits, j, v)
    ensures !GenerateInteger(signed, bits, j).Panic?
  {
    var read := if signed then GetInteger(j) else GetUnsignedInteger(j);
    forall n ensures read == Value(n) <==> MeansMachine(signed, j, n) {
      MachineIsRead(signed, j, n);
    }
    MachineIsRead(signed, j, 0);
    if NativeWidth(bits) {
      if read.Value? {
        NativeIsRead(signed, bits, j, read.value, v);
      }
    } else {
      BigIsRead(j, v);
    }
  }

  lemma NativeIsRead(signed: bool, bits: nat, j: Json, n: int, v: GoValue)
    requires NativeWidth(bits) && MeansMachine(signed, j, n) && forall m :: MeansMachine(signed, j, m) ==> m == n
    ensures (v == if signed then IntV(bits, WrapSigned(n, bits)) else UintV(bits, WrapUnsigned(n, bits))) <==>
            MeansInteger(signed, bits, j, v)
  {
    WrapIsLowBits(n, bits);
    if v.IntV? || v.UintV? {
      if LowBits(n, v.i, bits, signed) {
        LowBitsAreUnique(n, v.i, if signed then WrapSigned(n, bits) else WrapUnsigned(n, bits), bits, signed);
      }
    }
  }

  lemma BigIsRead(j: Json, v: GoValue)
    ensures GetBigInteger(j) == Value(v) <==>
            v.BigV? && if j.JString? then Says(j.s, v.i) else MeansMachine(true, j, v.i)
    ensures !GetBigInteger(j).Panic?
  {
    if v.BigV? {
      match j
      case JString(s) => ReadersAreExact(s, v.i);
      case JNumber(r) => MachineIsRead(true, j, v.i);
      case _ =>
    }
  }

  /**
    The JSON value denotes this value of the type, said without computing it: element by element for slices and arrays,
    the elements of an array that are not sent being zero, and field by field for tuples.
   */
  ghost predicate Denotes(t: AbiType, j: Json, v: GoValue)
    decreases t
  {
    match t
    case IntType(bits) => MeansInteger(true, bits, j, v)
    case UintType(bits) => MeansInteger(false, bits, j, v)
    case BoolType => v.BoolV? && ((j.JBool? && j.b == v.b) || (j.JString? && (v.b <==> ReadsTrue(j.s))))
    case StringType => j.JString? && v == StringV(j.s)
    case AddressType => j.JString? && IsHexAddress(j.s) && v == AddressV(HexToAddress(j.s))
    case BytesType => v.SliceV? && v.elem == GoUint(8) && ByteValues(v.vals) && MeansBytes(j, BytesOf(v.vals))
    case FixedBytesType(_) => v.ArrayV? && v.elem == GoUint(8) && ByteValues(v.vals) && MeansBytes(j, BytesOf(v.vals))
    case SliceType(elem) =>
      && j.JArray? && v.SliceV? && v.elem == GoTypeOf(elem) && |v.vals| == |j.items|
      && forall i :: 0 <= i < |j.items| ==> Denotes(elem, j.items[i], v.vals[i]) && TypeOf(v.vals[i]) == GoTypeOf(elem)
    case ArrayType(elem, size) =>
      && j.JArray? && v.ArrayV? && v.elem == GoTypeOf(elem) && |j.items| <= size == |v.vals|
      && (forall i :: 0 <= i < |j.items| ==>
            Denotes(elem, j.items[i], v.vals[i]) && TypeOf(v.vals[i]) == GoTypeOf(elem))
      && (forall i :: |j.items| <= i < size ==> v.vals[i] == Zero(GoTypeOf(elem)))
    case TupleType(fields) =>
      && j.JObject? && v.StructV? && v.fields == GoFieldsOf(fields) && |v.vals| == |fields|
      && forall i :: 0 <= i < |fields| ==>
           && fields[i].name in j.members && Denotes(fields[i].t, j.members[fields[i].name], v.vals[i])
           && TypeOf(v.vals[i]) == GoTypeOf(fields[i].t)
    case OtherType => false
  }

  /** Which error a value of another JSON type, or one that cannot be read, is refused with. */
  lemma ScalarErrors(t: AbiType, j: Json)
    ensures j.JNull? ==> Generate(t, j) == Error(BadNull)
    ensures t.OtherType? && !j.JNull? ==> Generate(t, j) == Error(NotSupported)
    ensures (t.BoolType? && !j.JNull? && !j.JString? && !j.JBool?) || (t.StringType? && !j.JNull? && !j.JString?) ||
            (t.AddressType? && !j.JNull? && !j.JString?) ||
            ((t.SliceType? || t.ArrayType?) && !j.JNull? && !j.JArray?) ||
            (t.TupleType? && !j.JNull? && !j.JObject?) ||
            ((t.BytesType? || t.FixedBytesType?) && !j.JNull? && !j.JString? && !j.JArray?) ||
            ((t.IntType? || t.UintType?) && !j.JNull? && !j.JString? && !j.JNumber?) ==>
              Generate(t, j) == Error(BadJsonType)
    ensures t.AddressType? && j.JString? && !IsHexAddress(j.s) ==> Generate(t, j) == Error(BadAddress)
    ensures (t.IntType? || t.UintType?) && j.JString? && !Generate(t, j).Value? ==> Generate(t, j) == Error(BadNumber)
  {
  }

  /** The first number that is no byte, or item that is no number, decides about the error. */
  ghost predicate FirstNoByte(items: seq<Json>, i: nat) {
    i < |items| && !IsByte(items[i]) && forall h :: 0 <= h < i ==> IsByte(items[h])
  }

  lemma {:induction false} BytesSucceed(items: seq<Json>)
    ensures NumbersToBytes(items).Value? <==> forall i :: 0 <= i < |items| ==> IsByte(items[i])
    decreases |items|
  {
    if items != [] {
      var last := |items| - 1;
      BytesSucceed(items[..last]);
      assert forall i :: 0 <= i < last ==> items[..last][i] == items[i];
    }
  }

  lemma {:induction false} ByteErrors(items: seq<Json>)
    requires !NumbersToBytes(items).Value?
    ensures exists i: nat ::
              && FirstNoByte(items, i)
              && NumbersToBytes(items) == Error(if items[i].JNumber? then BadByte else BadJsonType)
    decreases |items|
  {
    var last := |items| - 1;
    var init := items[..last];
    BytesSucceed(init);
    assert forall i :: 0 <= i < last ==> init[i] == items[i];
    if NumbersToBytes(init).Value? {
      assert FirstNoByte(items, last);
    } else {
      ByteErrors(init);
      var i: nat :| && FirstNoByte(init, i)
                    && NumbersToBytes(init) == Error(if init[i].JNumber? then BadByte else BadJsonType);
      assert FirstNoByte(items, i);
    }
  }

  predicate IsByte(j: Json) {
    j.JNumber? && 0.0 <= j.r <= 255.0
  }

  // ------------------------------------------------------------------ several outcomes

  function Append(rs: Outcome<seq<GoValue>>, r: Outcome<GoValue>): Outcome<seq<GoValue>> {
    match rs
    case Error(e) => Error(e)
    case Panic => Panic
    case Value(vals) =>
      match r
      case Error(e) => Error(e)
      case Panic => Panic
      case Value(v) => Value(vals + [v])
  }

  /** The values of all outcomes, or the first that is none. */
  function Joined(rs: seq<Outcome<GoValue>>): Outcome<seq<GoValue>> {
    if rs == [] then Value([]) else Append(Joined(rs[..|rs| - 1]), rs[|rs| - 1])
  }

  lemma {:induction false} JoinedSucceeds(rs: seq<Outcome<GoValue>>)
    ensures Joined(rs).Value? <==> forall i :: 0 <= i < |rs| ==> rs[i].Value?
  {
    if rs != [] {
      var last := |rs| - 1;
      JoinedSucceeds(rs[..last]);
      assert forall i :: 0 <= i < last ==> rs[..last][i] == rs[i];
    }
  }

  lemma {:induction false} JoinedValues(rs: seq<Outcome<GoValue>>)
    requires Joined(rs).Value?
    ensures |Joined(rs).value| == |rs| && forall i :: 0 <= i < |rs| ==> rs[i] == Value(Joined(rs).value[i])
  {
    if rs != [] {
      var last := |rs| - 1;
      JoinedValues(rs[..last]);
      assert forall i :: 0 <= i < last ==> rs[..last][i] == rs[i];
    }
  }

  lemma {:induction false} JoinedFails(rs: seq<Outcome<GoValue>>) returns (i: nat)
    requires !Joined(rs).Value?
    ensures i < |rs| && !rs[i].Value? && forall h :: 0 <= h < i ==> rs[h].Value?
    ensures if rs[i].Error? then Joined(rs) == Error(rs[i].error) else Joined(rs).Panic?
  {
    var last := |rs| - 1;
    if Joined(rs[..last]).Value? {
      JoinedSucceeds(rs[..last]);
      i := last;
      assert forall h :: 0 <= h < last ==> rs[..last][h] == rs[h];
    } else {
      i := JoinedFails(rs[..last]);
      assert rs[..last][i] == rs[i] && forall h :: 0 <= h < i ==> rs[..last][h] == rs[h];
    }
  }

  // ------------------------------------------------------------------ elements and fields

  /** The item can be stored at this place of a slice, or of an array of this size. */
  predicate Stored(elem: AbiType, items: seq<Json>, size: Option<nat>, i: nat)
    requires i < |items|
  {
    var r := Generate(elem, items[i]);
    r.Value? && TypeOf(r.value) == GoTypeOf(elem) && (size.Some? ==> i < size.value)
  }

  /** The first item that cannot be stored. */
  ghost predicate FirstBad(elem: AbiType, items: seq<Json>, size: Option<nat>, i: nat) {
    i < |items| && !Stored(elem, items, size, i) && forall h :: 0 <= h < i ==> Stored(elem, items, size, h)
  }

  /** Each value is what the item at its place generates. */
  ghost predicate GeneratedBy(elem: AbiType, items: seq<Json>, vals: seq<GoValue>) {
    |vals| == |items| && forall i :: 0 <= i < |items| ==> Generate(elem, items[i]) == Value(vals[i])
  }

  /** What becomes of a result that is to be stored at a place. */
  function Placed(elem: AbiType, r: Outcome<GoValue>, size: Option<nat>, i: nat): Outcome<GoValue> {
    if r.Value? && ((size.Some? && i >= size.value) || TypeOf(r.value) != GoTypeOf(elem)) then Panic else r
  }

  function PlacedEach(elem: AbiType, items: seq<Json>, size: Option<nat>): seq<Outcome<GoValue>> {
    seq(|items|, i requires 0 <= i < |items| => Placed(elem, Generate(elem, items[i]), size, i))
  }

  lemma OneMoreElement(elem: AbiType, items: seq<Json>, size: Option<nat>)
    requires items != []
    ensures var last := |items| - 1;
            GenerateEach(elem, items, size) ==
            Append(GenerateEach(elem, items[..last], size), Placed(elem, Generate(elem, items[last]), size, last))
  {
  }

  lemma {:induction false} EachIsJoined(elem: AbiType, items: seq<Json>, size: Option<nat>)
    ensures GenerateEach(elem, items, size) == Joined(PlacedEach(elem, items, size))
    decreases |items|
  {
    if items != [] {
      var last := |items| - 1;
      EachIsJoined(elem, items[..last], size);
      OneMoreElement(elem, items, size);
      assert PlacedEach(elem, items, size)[..last] == PlacedEach(elem, items[..last], size);
    }
  }

  lemma PlacedIffStored(elem: AbiType, items: seq<Json>, size: Option<nat>, i: nat)
    requires i < |items|
    ensures PlacedEach(elem, items, size)[i].Value? <==> Stored(elem, items, size, i)
    ensures PlacedEach(elem, items, size)[i].Value? ==> Generate(elem, items[i]) == PlacedEach(elem, items, size)[i]
  {
  }

  /** The elements are generated place by place. */
  lemma EachSucceeds(elem: AbiType, items: seq<Json>, size: Option<nat>)
    ensures GenerateEach(elem, items, size).Value? <==> forall i :: 0 <= i < |items| ==> Stored(elem, items, size, i)
  {
    EachIsJoined(elem, items, size);
    JoinedSucceeds(PlacedEach(elem, items, size));
    forall i | 0 <= i < |items| ensures PlacedEach(elem, items, size)[i].Value? <==> Stored(elem, items, size, i) {
      PlacedIffStored(elem, items, size, i);
    }
  }

  lemma EachIsGenerated(elem: AbiType, items: seq<Json>, size: Option<nat>)
    requires GenerateEach(elem, items, size).Value?
    ensures GeneratedBy(elem, items, GenerateEach(elem, items, size).value)
  {
    EachIsJoined(elem, items, size);
    JoinedValues(PlacedEach(elem, items, size));
    var vals := GenerateEach(elem, items, size).value;
    forall i | 0 <= i < |items| ensures Generate(elem, items[i]) == Value(vals[i]) {
      PlacedIffStored(elem, items, size, i);
    }
  }

  /**
    The first item that cannot be stored decides about the failure: its own error, or a panic if it is generated but
    does not fit.
   */
  lemma EachFailsLikeTheFirst(elem: AbiType, items: seq<Json>, size: Option<nat>)
    requires !GenerateEach(elem, items, size).Value?
    ensures exists i: nat ::
              FirstBad(elem, items, size, i) && FailsLike(GenerateEach(elem, items, size), Generate(elem, items[i]))
  {
    EachIsJoined(elem, items, size);
    var i := JoinedFails(PlacedEach(elem, items, size));
    forall h | 0 <= h <= i ensures PlacedEach(elem, items, size)[h].Value? <==> Stored(elem, items, size, h) {
      PlacedIffStored(elem, items, size, h);
    }
    assert FirstBad(elem, items, size, i) && FailsLike(GenerateEach(elem, items, size), Generate(elem, items[i]));
  }

  /** The failure of one element: the same error, or otherwise a panic. */
  predicate FailsLike(r: Outcome<seq<GoValue>>, one: Outcome<GoValue>) {
    if one.Error? then r == Error(one.error) else r.Panic?
  }

  predicate Assignable(fields: seq<Field>, members: map<string, Json>, i: nat)
    requires i < |fields|
  {
    && fields[i].name in members
    && var r := Generate(fields[i].t, members[fields[i].name]);
       r.Value? && TypeOf(r.value) == GoTypeOf(fields[i].t)
  }

  ghost predicate FirstUnassignable(fields: seq<Field>, members: map<string, Json>, i: nat) {
    i < |fields| && !Assignable(fields, members, i) && forall h :: 0 <= h < i ==> Assignable(fields, members, h)
  }

  /** What the first field that cannot be assigned fails with. */
  predicate FieldFailsLike(r: Outcome<seq<GoValue>>, fields: seq<Field>, members: map<string, Json>, i: nat)
    requires i < |fields|
  {
    if fields[i].name !in members then r == Error(NotAssignable)
    else
      match Generate(fields[i].t, members[fields[i].name])
      case Error(e) => r == Error(e)
      case Panic => r.Panic?
      case Value(_) => r == Error(NotAssignable)
  }

  /** What becomes of a field; `r` is what its member generates. */
  function Assigned(t: AbiType, r: Outcome<GoValue>): Outcome<GoValue> {
    if r.Value? && TypeOf(r.value) != GoTypeOf(t) then Error(NotAssignable) else r
  }

  function AssignedEach(fields: seq<Field>, members: map<string, Json>): seq<Outcome<GoValue>> {
    seq(|fields|, i requires 0 <= i < |fields| =>
      if fields[i].name !in members then Error(NotAssignable)
      else Assigned(fields[i].t, Generate(fields[i].t, members[fields[i].name])))
  }

  lemma {:induction false} FieldsAreJoined(fields: seq<Field>, members: map<string, Json>)
    ensures GenerateFields(fields, members) == Joined(AssignedEach(fields, members))
    decreases |fields|
  {
    if fields != [] {
      var last := |fields| - 1;
      FieldsAreJoined(fields[..last], members);
      assert AssignedEach(fields, members)[..last] == AssignedEach(fields[..last], members);
    }
  }

  lemma AssignedIffAssignable(fields: seq<Field>, members: map<string, Json>, i: nat)
    requires i < |fields|
    ensures AssignedEach(fields, members)[i].Value? <==> Assignable(fields, members, i)
    ensures AssignedEach(fields, members)[i].Value? ==>
              Generate(fields[i].t, members[fields[i].name]) == AssignedEach(fields, members)[i]
  {
  }

  lemma FieldsSucceed(fields: seq<Field>, members: map<string, Json>)
    ensures GenerateFields(fields, members).Value? <==> forall i :: 0 <= i < |fields| ==> Assignable(fields, members, i)
  {
    FieldsAreJoined(fields, members);
    JoinedSucceeds(AssignedEach(fields, members));
    forall i | 0 <= i < |fields| ensures AssignedEach(fields, members)[i].Value? <==> Assignable(fields, members, i) {
      AssignedIffAssignable(fields, members, i);
    }
  }

  /** The fields are generated from the members of their names. */
  lemma FieldsAreGenerated(fields: seq<Field>, members: map<string, Json>)
    requires GenerateFields(fields, members).Value?
    ensures var vals := GenerateFields(fields, members).value;
            && |vals| == |fields|
            && forall i :: 0 <= i < |fields| ==>
                 fields[i].name in members && Generate(fields[i].t, members[fields[i].name]) == Value(vals[i])
  {
    FieldsAreJoined(fields, members);
    JoinedValues(AssignedEach(fields, members));
    var vals := GenerateFields(fields, members).value;
    forall i | 0 <= i < |fields|
      ensures fields[i].name in members && Generate(fields[i].t, members[fields[i].name]) == Value(vals[i])
    {
      AssignedIffAssignable(fields, members, i);
    }
  }

  /** The first field that cannot be assigned decides about the failure. */
  lemma FieldsFailLikeTheFirst(fields: seq<Field>, members: map<string, Json>)
    requires !GenerateFields(fields, members).Value?
    ensures exists i: nat ::
              && FirstUnassignable(fields, members, i)
              && FieldFailsLike(GenerateFields(fields, members), fields, members, i)
  {
    FieldsAreJoined(fields, members);
    var i := JoinedFails(AssignedEach(fields, members));
    forall h | 0 <= h <= i ensures AssignedEach(fields, members)[h].Value? <==> Assignable(fields, members, h) {
      AssignedIffAssignable(fields, members, h);
    }
    assert FirstUnassignable(fields, members, i) &&
           FieldFailsLike(GenerateFields(fields, members), fields, members, i);
  }

  lemma BytesAreGenerated(fixed: bool, j: Json, v: GoValue)
    ensures GenerateBytes(fixed, j) == Value(v) <==>
            && (if fixed then v.ArrayV? && v.elem == GoUint(8) else v.SliceV? && v.elem == GoUint(8))
            && ByteValues(v.vals) && MeansBytes(j, BytesOf(v.vals))
    ensures !GenerateBytes(fixed, j).Panic?
  {
    if (v.ArrayV? || v.SliceV?) && ByteValues(v.vals) {
      ValuesOfBytesOf(v.vals);
      if j.JArray? {
        NumbersAreBytes(j.items, BytesOf(v.vals));
      }
    }
    if j.JArray? {
      NumbersAreBytes(j.items, []);
    }
    var r := GenerateBytes(fixed, j);
    if r.Value? {
      GeneratedBytesAreBytes(fixed, j);
    }
  }

  lemma ValuesOfBytesOf(vals: seq<GoValue>)
    requires ByteValues(vals)
    ensures ValuesOf(BytesOf(vals)) == vals
  {
    BytesRoundTrip(vals);
  }

  lemma BytesOfValuesOf(bytes: seq<Byte>)
    ensures ByteValues(ValuesOf(bytes)) && BytesOf(ValuesOf(bytes)) == bytes
  {
  }

  lemma GeneratedBytesAreBytes(fixed: bool, j: Json)
    requires GenerateBytes(fixed, j).Value?
    ensures var v := GenerateBytes(fixed, j).value;
            (v.ArrayV? || v.SliceV?) && ByteValues(v.vals) && MeansBytes(j, BytesOf(v.vals))
  {
    var bytes := match j case JArray(items) => NumbersToBytes(items).value case JString(s) => FromHex(s);
    BytesOfValuesOf(bytes);
    if j.JArray? {
      NumbersAreBytes(j.items, bytes);
    }
  }

  /** For every type and every JSON value, `generateTypedArg` gives a value exactly when the JSON value denotes it. */
  lemma {:induction false} GenerateIsDenotation(t: AbiType, j: Json, v: GoValue)
    ensures Generate(t, j) == Value(v) <==> Denotes(t, j, v)
    decreases t, 1
  {
    match t
    case IntType(bits) => IntegerIsRead(true, bits, j, v);
    case UintType(bits) => IntegerIsRead(false, bits, j, v);
    case BoolType => if j.JString? { LowerTrue(j.s); }
    case StringType =>
    case AddressType =>
    case BytesType => BytesAreGenerated(false, j, v);
    case FixedBytesType(_) => BytesAreGenerated(true, j, v);
    case SliceType(elem) =>
      if j.JArray? {
        if v.SliceV? {
          EachIsDenotation(elem, j.items, None, v.vals);
        }
        SliceIsDenotation(elem, j, v);
      }
    case ArrayType(elem, size) =>
      if j.JArray? {
        if v.ArrayV? && |j.items| <= |v.vals| {
          EachIsDenotation(elem, j.items, Some(size), v.vals[..|j.items|]);
        }
        ArrayIsDenotation(elem, size, j, v);
      }
    case TupleType(fields) => if j.JObject? { TupleIsDenotation(fields, j, v); }
    case OtherType =>
  }

  /** The elements are these exactly when each place generates its own. */
  lemma SameWhenGenerated(elem: AbiType, items: seq<Json>, size: Option<nat>, vals: seq<GoValue>)
    requires |vals| == |items|
    ensures GenerateEach(elem, items, size) == Value(vals) <==>
            GeneratedBy(elem, items, vals) && forall i :: 0 <= i < |items| ==> Stored(elem, items, size, i)
  {
    EachSucceeds(elem, items, size);
    var r := GenerateEach(elem, items, size);
    if r.Value? {
      EachIsGenerated(elem, items, size);
      if GeneratedBy(elem, items, vals) {
        assert r.value == vals;
      }
    }
  }

  /** The values are denoted place by place, and are of the element's Go type. */
  ghost predicate DenotesEach(elem: AbiType, items: seq<Json>, vals: seq<GoValue>) {
    && |vals| == |items|
    && forall i :: 0 <= i < |items| ==> Denotes(elem, items[i], vals[i]) && TypeOf(vals[i]) == GoTypeOf(elem)
  }

  lemma {:induction false} EachIsDenotation(elem: AbiType, items: seq<Json>, size: Option<nat>, vals: seq<GoValue>)
    ensures GenerateEach(elem, items, size) == Value(vals) <==>
            DenotesEach(elem, items, vals) && (size.Some? ==> |items| <= size.value)
    decreases elem, 2
  {
    if |vals| == |items| {
      forall i | 0 <= i < |items|
        ensures Generate(elem, items[i]) == Value(vals[i]) <==> Denotes(elem, items[i], vals[i])
      {
        GenerateIsDenotation(elem, items[i], vals[i]);
      }
      SameWhenGenerated(elem, items, size, vals);
      PlacesAreStored(elem, items, size, vals);
    } else if GenerateEach(elem, items, size).Value? {
      EachIsGenerated(elem, items, size);
    }
  }

  lemma PlacesAreStored(elem: AbiType, items: seq<Json>, size: Option<nat>, vals: seq<GoValue>)
    requires |vals| == |items|
    ensures GeneratedBy(elem, items, vals) ==>
              ((forall i :: 0 <= i < |items| ==> Stored(elem, items, size, i)) <==>
               && (size.Some? ==> |items| <= size.value)
               && forall i :: 0 <= i < |items| ==> TypeOf(vals[i]) == GoTypeOf(elem))
  {
    if GeneratedBy(elem, items, vals) && forall i :: 0 <= i < |items| ==> Stored(elem, items, size, i) {
      forall i | 0 <= i < |items| ensures TypeOf(vals[i]) == GoTypeOf(elem) {
        assert Stored(elem, items, size, i);
      }
      assert items != [] ==> Stored(elem, items, size, |items| - 1);
    }
  }

  lemma SliceIsDenotation(elem: AbiType, j: Json, v: GoValue)
    requires j.JArray? && (v.SliceV? ==> (GenerateEach(elem, j.items, None) == Value(v.vals) <==>
                                          DenotesEach(elem, j.items, v.vals)))
    ensures Generate(SliceType(elem), j) == Value(v) <==> Denotes(SliceType(elem), j, v)
  {
    assert Denotes(SliceType(elem), j, v) <==>
           v.SliceV? && v.elem == GoTypeOf(elem) && DenotesEach(elem, j.items, v.vals);
  }

  lemma ArrayIsDenotation(elem: AbiType, size: nat, j: Json, v: GoValue)
    requires j.JArray?
    requires v.ArrayV? && |j.items| <= |v.vals| ==>
               (GenerateEach(elem, j.items, Some(size)) == Value(v.vals[..|j.items|]) <==>
                DenotesEach(elem, j.items, v.vals[..|j.items|]) && |j.items| <= size)
    ensures Generate(ArrayType(elem, size), j) == Value(v) <==> Denotes(ArrayType(elem, size), j, v)
  {
    var n, zero, r := |j.items|, Zero(GoTypeOf(elem)), GenerateEach(elem, j.items, Some(size));
    ArrayIsPadded(elem, size, j, v);
    if v.ArrayV? && n <= size == |v.vals| {
      DenotesEachOfPart(elem, j.items, v.vals);
    }
  }

  lemma DenotesEachOfPart(elem: AbiType, items: seq<Json>, vals: seq<GoValue>)
    requires |items| <= |vals|
    ensures DenotesEach(elem, items, vals[..|items|]) <==>
            forall i :: 0 <= i < |items| ==> Denotes(elem, items[i], vals[i]) && TypeOf(vals[i]) == GoTypeOf(elem)
  {
    var part := vals[..|items|];
    assert forall i :: 0 <= i < |items| ==> part[i] == vals[i];
  }

  lemma ArrayShape(elem: AbiType, size: nat, j: Json)
    requires j.JArray?
    ensures var n, r := |j.items|, GenerateEach(elem, j.items, Some(size));
            && (r.Value? ==>
                  && |r.value| == n <= size
                  && Generate(ArrayType(elem, size), j) ==
                     Value(ArrayV(GoTypeOf(elem), r.value + Zeros(GoTypeOf(elem), size - n))))
            && (!r.Value? ==> !Generate(ArrayType(elem, size), j).Value?)
  {
    var n, r := |j.items|, GenerateEach(elem, j.items, Some(size));
    EachSucceeds(elem, j.items, Some(size));
    if r.Value? {
      EachIsGenerated(elem, j.items, Some(size));
      assert n > 0 ==> Stored(elem, j.items, Some(size), n - 1);
    }
  }

  /** An array holds the elements that were sent and then zero values. */
  lemma ArrayIsPadded(elem: AbiType, size: nat, j: Json, v: GoValue)
    requires j.JArray?
    ensures Generate(ArrayType(elem, size), j) == Value(v) <==>
            && v.ArrayV? && v.elem == GoTypeOf(elem) && |j.items| <= size == |v.vals|
            && GenerateEach(elem, j.items, Some(size)) == Value(v.vals[..|j.items|])
            && forall i :: |j.items| <= i < size ==> v.vals[i] == Zero(GoTypeOf(elem))
  {
    ArrayShape(elem, size, j);
    var r := GenerateEach(elem, j.items, Some(size));
    if r.Value? && v.ArrayV? && size == |v.vals| {
      PaddedIsSame(v.vals, r.value, size, GoTypeOf(elem));
    }
  }

  lemma PaddedIsSame(vals: seq<GoValue>, part: seq<GoValue>, size: nat, g: GoType)
    requires |part| <= size == |vals|
    ensures vals == part + Zeros(g, size - |part|) <==>
            vals[..|part|] == part && forall i :: |part| <= i < size ==> vals[i] == Zero(g)
  {
    var padded := part + Zeros(g, size - |part|);
    assert forall i :: |part| <= i < size ==> padded[i] == Zero(g);
    assert padded[..|part|] == part;
    if vals[..|part|] == part && forall i :: |part| <= i < size ==> vals[i] == Zero(g) {
      forall i | 0 <= i < size ensures vals[i] == padded[i] {
        assert i < |part| ==> vals[..|part|][i] == part[i];
      }
    }
  }

  lemma {:induction false} TupleIsDenotation(fields: seq<Field>, j: Json, v: GoValue)
    requires j.JObject?
    ensures Generate(TupleType(fields), j) == Value(v) <==> Denotes(TupleType(fields), j, v)
    decreases TupleType(fields), 0
  {
    if v.StructV? && |v.vals| == |fields| {
      forall i | 0 <= i < |fields| && fields[i].name in j.members
        ensures Generate(fields[i].t, j.members[fields[i].name]) == Value(v.vals[i]) <==>
                Denotes(fields[i].t, j.members[fields[i].name], v.vals[i])
      {
        GenerateIsDenotation(fields[i].t, j.members[fields[i].name], v.vals[i]);
      }
      SameFieldsWhenGenerated(fields, j.members, v.vals);
    } else if GenerateFields(fields, j.members).Value? {
      FieldsAreGenerated(fields, j.members);
    }
  }

  lemma SameFieldsWhenGenerated(fields: seq<Field>, members: map<string, Json>, vals: seq<GoValue>)
    requires |vals| == |fields|
    ensures GenerateFields(fields, members) == Value(vals) <==>
            forall i :: 0 <= i < |fields| ==>
              && fields[i].name in members && Generate(fields[i].t, members[fields[i].name]) == Value(vals[i])
              && TypeOf(vals[i]) == GoTypeOf(fields[i].t)
  {
    FieldsSucceed(fields, members);
    var r := GenerateFields(fields, members);
    if forall i :: 0 <= i < |fields| ==>
         && fields[i].name in members && Generate(fields[i].t, members[fields[i].name]) == Value(vals[i])
         && TypeOf(vals[i]) == GoTypeOf(fields[i].t)
    {
      forall i | 0 <= i < |fields| ensures Assignable(fields, members, i) {
      }
      FieldsAreGenerated(fields, members);
      assert r.value == vals;
    }
    if r == Value(vals) {
      FieldsAreGenerated(fields, members);
      forall i | 0 <= i < |fields|
        ensures fields[i].name in members && Generate(fields[i].t, members[fields[i].name]) == Value(vals[i])
        ensures TypeOf(vals[i]) == GoTypeOf(fields[i].t)
      {
        assert Assignable(fields, members, i);
      }
    }
  }

  // ------------------------------------------------------------------ to JSON

  predicate HasName(fields: seq<Field>, name: string) {
    exists i :: 0 <= i < |fields| && fields[i].name == name
  }

  /** No later field has the same name. */
  predicate LastOfItsName(fields: seq<Field>, i: nat)
    requires i < |fields|
  {
    forall h :: i < h < |fields| ==> fields[h].name != fields[i].name
  }

  /**
    The JSON value shows this value of the type, said without computing it: numbers as decimal text, bytes as hex text,
    elements in order, and the fields of a tuple under their names, the last one of a name winning.
   */
  ghost predicate Shows(t: AbiType, v: GoValue, j: Json)
    decreases t
  {
    match t
    case IntType(_) => (v.BigV? || v.IntV? || v.UintV?) && j == JString(Format(v.i))
    case UintType(_) => (v.BigV? || v.IntV? || v.UintV?) && j == JString(Format(v.i))
    case BoolType => v.BoolV? && j == JBool(v.b)
    case StringType => v.StringV? && j == JString(v.s)
    case BytesType => ShowsBytes(v, j)
    case FixedBytesType(_) => ShowsBytes(v, j)
    case AddressType => ShowsBytes(v, j)
    case SliceType(elem) =>
      && v.SliceV? && j.JArray? && |j.items| == |v.vals|
      && forall i :: 0 <= i < |v.vals| ==> Shows(elem, v.vals[i], j.items[i])
    case ArrayType(elem, _) =>
      && v.SliceV? && j.JArray? && |j.items| == |v.vals|
      && forall i :: 0 <= i < |v.vals| ==> Shows(elem, v.vals[i], j.items[i])
    case TupleType(fields) =>
      && v.StructV? && v.fields == GoFieldsOf(fields) && |v.vals| == |fields| && j.JObject?
      && (forall name :: name in j.members ==> HasName(fields, name))
      && (forall i :: 0 <= i < |fields| ==>
            && fields[i].name in j.members && Shown(fields[i].t, v.vals[i])
            && (LastOfItsName(fields, i) ==> Shows(fields[i].t, v.vals[i], j.members[fields[i].name])))
    case OtherType => false
  }

  /** The value is of a kind that can be shown for the type, at every level. A Go array cannot, except one of bytes. */
  predicate Shown(t: AbiType, v: GoValue)
    decreases t
  {
    match t
    case IntType(_) => v.BigV? || v.IntV? || v.UintV?
    case UintType(_) => v.BigV? || v.IntV? || v.UintV?
    case BoolType => v.BoolV?
    case StringType => v.StringV?
    case BytesType => v.AddressV? || ((v.SliceV? || v.ArrayV?) && v.elem == GoUint(8))
    case FixedBytesType(_) => v.AddressV? || ((v.SliceV? || v.ArrayV?) && v.elem == GoUint(8))
    case AddressType => v.AddressV? || ((v.SliceV? || v.ArrayV?) && v.elem == GoUint(8))
    case SliceType(elem) => v.SliceV? && forall i :: 0 <= i < |v.vals| ==> Shown(elem, v.vals[i])
    case ArrayType(elem, _) => v.SliceV? && forall i :: 0 <= i < |v.vals| ==> Shown(elem, v.vals[i])
    case TupleType(fields) =>
      && v.StructV? && v.fields == GoFieldsOf(fields) && |v.vals| == |fields|
      && forall i :: 0 <= i < |fields| ==> Shown(fields[i].t, v.vals[i])
    case OtherType => false
  }

  predicate ShowsBytes(v: GoValue, j: Json) {
    match v
    case AddressV(bytes) => j == JString(HexEncode(bytes))
    case SliceV(elem, vals) => elem == GoUint(8) && j == JString(HexEncode(BytesOf(vals)))
    case ArrayV(elem, vals) => elem == GoUint(8) && j == JString(HexEncode(BytesOf(vals)))
    case _ => false
  }

  lemma {:induction false} EachMaps(elem: AbiType, vals: seq<GoValue>)
    ensures MapEach(elem, vals).Ok? <==> forall i :: 0 <= i < |vals| ==> MapOutput(elem, vals[i]).Ok?
    decreases |vals|
  {
    if vals != [] {
      var last := |vals| - 1;
      EachMaps(elem, vals[..last]);
      assert forall i :: 0 <= i < last ==> vals[..last][i] == vals[i];
    }
  }

  lemma {:induction false} EachIsMapped(elem: AbiType, vals: seq<GoValue>)
    requires MapEach(elem, vals).Ok?
    ensures var items := MapEach(elem, vals).value;
            |items| == |vals| && forall i :: 0 <= i < |vals| ==> MapOutput(elem, vals[i]) == Ok(items[i])
    decreases |vals|
  {
    if vals != [] {
      var last := |vals| - 1;
      EachIsMapped(elem, vals[..last]);
      assert forall i :: 0 <= i < last ==> vals[..last][i] == vals[i];
    }
  }

  lemma OneMoreMember(fields: seq<Field>, vals: seq<GoValue>)
    requires |vals| == |fields| > 0
    ensures var last := |fields| - 1;
            MapMembers(fields, vals).Ok? <==>
            MapMembers(fields[..last], vals[..last]).Ok? && MapOutput(fields[last].t, vals[last]).Ok?
  {
  }

  function MappedEach(fields: seq<Field>, vals: seq<GoValue>): seq<Result<Json, OutputError>>
    requires |vals| == |fields|
  {
    seq(|fields|, i requires 0 <= i < |fields| => MapOutput(fields[i].t, vals[i]))
  }

  predicate AllOk(rs: seq<Result<Json, OutputError>>) {
    forall i :: 0 <= i < |rs| ==> rs[i].Ok?
  }

  lemma OneMoreOk(rs: seq<Result<Json, OutputError>>)
    requires rs != []
    ensures AllOk(rs) <==> AllOk(rs[..|rs| - 1]) && rs[|rs| - 1].Ok?
  {
    var init := rs[..|rs| - 1];
    assert forall i :: 0 <= i < |init| ==> init[i] == rs[i];
  }

  lemma {:induction false} MembersAreMapped(fields: seq<Field>, vals: seq<GoValue>)
    requires |vals| == |fields|
    ensures MapMembers(fields, vals).Ok? <==> AllOk(MappedEach(fields, vals))
    decreases |fields|
  {
    if fields != [] {
      var last := |fields| - 1;
      MembersAreMapped(fields[..last], vals[..last]);
      OneMoreMember(fields, vals);
      OneMoreOk(MappedEach(fields, vals));
      assert MappedEach(fields, vals)[..last] == MappedEach(fields[..last], vals[..last]);
    }
  }

  lemma MembersSucceed(fields: seq<Field>, vals: seq<GoValue>)
    requires |vals| == |fields|
    ensures MapMembers(fields, vals).Ok? <==> forall i :: 0 <= i < |fields| ==> MapOutput(fields[i].t, vals[i]).Ok?
  {
    MembersAreMapped(fields, vals);
    assert forall i :: 0 <= i < |fields| ==> MappedEach(fields, vals)[i] == MapOutput(fields[i].t, vals[i]);
  }

  lemma NamesGrow(fields: seq<Field>, name: string)
    requires fields != []
    ensures HasName(fields, name) <==> name == fields[|fields| - 1].name || HasName(fields[..|fields| - 1], name)
  {
    var init := fields[..|fields| - 1];
    if HasName(init, name) {
      var i :| 0 <= i < |init| && init[i].name == name;
      assert fields[i].name == name;
    }
    if i :| 0 <= i < |fields| - 1 && fields[i].name == name {
      assert init[i].name == name;
    }
  }

  lemma {:induction false} MembersHaveNames(fields: seq<Field>, vals: seq<GoValue>, name: string)
    requires |vals| == |fields| && MapMembers(fields, vals).Ok?
    ensures name in MapMembers(fields, vals).value <==> HasName(fields, name)
    decreases |fields|
  {
    if fields != [] {
      var last := |fields| - 1;
      MembersHaveNames(fields[..last], vals[..last], name);
      NamesGrow(fields, name);
    }
  }

  /** The member of a name is that of the last field with it. */
  lemma {:induction false} LastFieldWins(fields: seq<Field>, vals: seq<GoValue>, i: nat)
    requires |vals| == |fields| && MapMembers(fields, vals).Ok? && i < |fields| && LastOfItsName(fields, i)
    ensures var r := MapMembers(fields, vals).value;
            fields[i].name in r && MapOutput(fields[i].t, vals[i]) == Ok(r[fields[i].name])
    decreases |fields|
  {
    var last := |fields| - 1;
    if i < last {
      var init := fields[..last];
      assert init[i] == fields[i] && vals[..last][i] == vals[i];
      assert LastOfItsName(init, i) && fields[last].name != fields[i].name;
      LastFieldWins(init, vals[..last], i);
    }
  }

  /** For every type and value, well typed or not, `mapOutput` gives a JSON value exactly when it shows the value. */
  lemma {:induction false} MapOutputIsShowing(t: AbiType, v: GoValue, j: Json)
    ensures MapOutput(t, v) == Ok(j) <==> Shows(t, v, j)
    decreases t, 2
  {
    match t
    case SliceType(elem) => if v.SliceV? { ItemsAreShown(elem, v.vals, j); }
    case ArrayType(elem, _) => if v.SliceV? { ItemsAreShown(elem, v.vals, j); }
    case TupleType(fields) => if v.StructV? && |v.vals| == |fields| { MembersAreShown(fields, v.vals, j); }
    case _ =>
  }

  lemma {:induction false} ItemsAreShown(elem: AbiType, vals: seq<GoValue>, j: Json)
    ensures MapItems(elem, vals) == Ok(j) <==>
            j.JArray? && |j.items| == |vals| && forall i :: 0 <= i < |vals| ==> Shows(elem, vals[i], j.items[i])
    decreases elem, 3
  {
    EachMaps(elem, vals);
    if MapEach(elem, vals).Ok? {
      EachIsMapped(elem, vals);
    }
    if j.JArray? && |j.items| == |vals| {
      forall i | 0 <= i < |vals|
        ensures MapOutput(elem, vals[i]) == Ok(j.items[i]) <==> Shows(elem, vals[i], j.items[i])
      {
        MapOutputIsShowing(elem, vals[i], j.items[i]);
      }
      var r := MapEach(elem, vals);
      if forall i :: 0 <= i < |vals| ==> Shows(elem, vals[i], j.items[i]) {
        assert r.value == j.items;
      }
    }
  }

  /** `mapOutput` succeeds exactly for the values that can be shown. */
  lemma {:induction false} ShownIffMapped(t: AbiType, v: GoValue)
    ensures MapOutput(t, v).Ok? <==> Shown(t, v)
    decreases t, 0
  {
    match t
    case SliceType(elem) => if v.SliceV? { AllShownIffMapped(elem, v.vals); }
    case ArrayType(elem, _) => if v.SliceV? { AllShownIffMapped(elem, v.vals); }
    case TupleType(fields) =>
      if v.StructV? && |v.vals| == |fields| {
        MembersSucceed(fields, v.vals);
        forall i | 0 <= i < |fields| ensures MapOutput(fields[i].t, v.vals[i]).Ok? <==> Shown(fields[i].t, v.vals[i]) {
          ShownIffMapped(fields[i].t, v.vals[i]);
        }
      }
    case _ =>
  }

  lemma {:induction false} AllShownIffMapped(elem: AbiType, vals: seq<GoValue>)
    ensures MapItems(elem, vals).Ok? <==> forall i :: 0 <= i < |vals| ==> Shown(elem, vals[i])
    decreases elem, 1
  {
    EachMaps(elem, vals);
    forall i | 0 <= i < |vals| ensures MapOutput(elem, vals[i]).Ok? <==> Shown(elem, vals[i]) {
      ShownIffMapped(elem, vals[i]);
    }
  }

  /** What is shown of each field, against what is computed. */
  ghost predicate FieldsAgree(fields: seq<Field>, vals: seq<GoValue>, members: map<string, Json>)
    requires |vals| == |fields|
  {
    forall i :: 0 <= i < |fields| ==>
      && (MapOutput(fields[i].t, vals[i]).Ok? <==> Shown(fields[i].t, vals[i]))
      && (fields[i].name in members ==>
            (MapOutput(fields[i].t, vals[i]) == Ok(members[fields[i].name]) <==>
             Shows(fields[i].t, vals[i], members[fields[i].name])))
  }

  lemma {:induction false} MembersAreShown(fields: seq<Field>, vals: seq<GoValue>, j: Json)
    requires |vals| == |fields|
    ensures (MapMembers(fields, vals).Ok? && j == JObject(MapMembers(fields, vals).value)) <==>
            Shows(TupleType(fields), StructV(GoFieldsOf(fields), vals), j)
    decreases TupleType(fields), 1
  {
    if j.JObject? {
      forall i | 0 <= i < |fields|
        ensures MapOutput(fields[i].t, vals[i]).Ok? <==> Shown(fields[i].t, vals[i])
        ensures fields[i].name in j.members ==>
                  (MapOutput(fields[i].t, vals[i]) == Ok(j.members[fields[i].name]) <==>
                   Shows(fields[i].t, vals[i], j.members[fields[i].name]))
      {
        ShownIffMapped(fields[i].t, vals[i]);
        if fields[i].name in j.members {
          MapOutputIsShowing(fields[i].t, vals[i], j.members[fields[i].name]);
        }
      }
      AgreeingFieldsAreShown(fields, vals, j.members);
    }
  }

  lemma AgreeingFieldsAreShown(fields: seq<Field>, vals: seq<GoValue>, members: map<string, Json>)
    requires |vals| == |fields| && FieldsAgree(fields, vals, members)
    ensures (MapMembers(fields, vals).Ok? && members == MapMembers(fields, vals).value) <==>
            Shows(TupleType(fields), StructV(GoFieldsOf(fields), vals), JObject(members))
  {
    MembersSucceed(fields, vals);
    if MapMembers(fields, vals).Ok? && members == MapMembers(fields, vals).value {
      ComputedIsShown(fields, vals, members);
    }
    if Shows(TupleType(fields), StructV(GoFieldsOf(fields), vals), JObject(members)) {
      MembersAreTheSame(fields, vals, members);
    }
  }

  lemma ComputedIsShown(fields: seq<Field>, vals: seq<GoValue>, members: map<string, Json>)
    requires |vals| == |fields| && FieldsAgree(fields, vals, members)
    requires MapMembers(fields, vals) == Ok(members)
    ensures Shows(TupleType(fields), StructV(GoFieldsOf(fields), vals), JObject(members))
  {
    MembersSucceed(fields, vals);
    forall name | name in members ensures HasName(fields, name) {
      MembersHaveNames(fields, vals, name);
    }
    forall i | 0 <= i < |fields|
      ensures fields[i].name in members && Shown(fields[i].t, vals[i])
      ensures LastOfItsName(fields, i) ==> Shows(fields[i].t, vals[i], members[fields[i].name])
    {
      assert HasName(fields, fields[i].name);
      MembersHaveNames(fields, vals, fields[i].name);
      if LastOfItsName(fields, i) {
        LastFieldWins(fields, vals, i);
      }
    }
  }

  /** A map with the right entry for the last field of each name, and no other names, is the one that is computed. */
  lemma MembersAreTheSame(fields: seq<Field>, vals: seq<GoValue>, members: map<string, Json>)
    requires |vals| == |fields| && MapMembers(fields, vals).Ok?
    requires forall name :: name in members ==> HasName(fields, name)
    requires forall i :: 0 <= i < |fields| ==> fields[i].name in members
    requires forall i :: 0 <= i < |fields| && LastOfItsName(fields, i) ==>
               MapOutput(fields[i].t, vals[i]) == Ok(members[fields[i].name])
    ensures MapMembers(fields, vals).value == members
  {
    var r := MapMembers(fields, vals).value;
    forall name ensures name in members <==> name in r {
      MembersHaveNames(fields, vals, name);
    }
    forall name | name in members ensures r[name] == members[name] {
      var i :| 0 <= i < |fields| && fields[i].name == name;
      var last := LastWithName(fields, i);
      LastFieldWins(fields, vals, last);
    }
  }

  lemma LastWithName(fields: seq<Field>, i: nat) returns (last: nat)
    requires i < |fields|
    ensures i <= last < |fields| && fields[last].name == fields[i].name && LastOfItsName(fields, last)
  {
    last := i;
    var h := i + 1;
    while h < |fields|
      invariant i <= last < h <= |fields| && fields[last].name == fields[i].name
      invariant forall k :: last < k < h ==> fields[k].name != fields[last].name
    {
      if fields[h].name == fields[i].name {
        last := h;
      }
      h := h + 1;
    }
  }
}
