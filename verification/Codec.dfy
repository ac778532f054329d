/** Conversion between Python values and the protocol's wire values. */
module Codec {
  import opened Wrappers
  import opened Errors
  import opened Descriptors
  import opened LocalTimes
  import opened Numerals

  newtype Byte = x: int | 0 <= x < 256
  type Int32 = x: int | -0x8000_0000 <= x < 0x8000_0000
  type Int64 = x: int | -0x8000_0000_0000_0000 <= x < 0x8000_0000_0000_0000

  /** A Python float, NaN and the infinities included, carried by its bits. */
  datatype Double = Double(bits: bv64)

  /** A decimal, carried by the text `str` gives it. */
  datatype Decimal = Decimal(text: string, finite: bool)

  datatype LobReference = LobReference(
    lobId: string, kind: ValueType, sessionId: string, size: Option<int>, expires: Option<int>)

  /** The Python objects the codec tells apart; `List` stands for list and tuple. */
  datatype Value =
    | Null
    | Str(text: string)
    | Bytes(data: seq<Byte>)
    | Char(text: string)
    | Bool(flag: bool)
    | Int(number: int)
    | Float(float: Double)
    | Dec(decimal: Decimal)
    | Datetime(date: Date, time: Time, aware: bool)
    | DateOnly(date: Date)
    | TimeOnly(time: Time, aware: bool)
    | LocalTimestamp(text: string)
    | LocalTime(text: string)
    | Json(text: string)
    | Xml(text: string)
    | Blob(data: seq<Byte>)
    | Clob(text: string)
    | Spatial(wkb: seq<Byte>, geography: bool, srid: Option<int>, crs: Option<string>)
    | Array(elements: seq<Value>, elementType: TypeDescriptor)
    | List(elements: seq<Value>)
    | LobRef(reference: LobReference)
    | OtherObject

  /** The `Value` message; `NoKind` has no member of its oneof selected. */
  datatype WireValue =
    | NoKind
    | NullValue
    | StringValue(text: string)
    | VarbinaryValue(data: seq<Byte>)
    | CharValue(text: string)
    | BooleanValue(flag: bool)
    | ByteValue(small: Int32)
    | ShortValue(small: Int32)
    | IntegerValue(integer: Int32)
    | LongValue(long: Int64)
    | BigintegerValue(text: string)
    | FloatValue(float: Double)
    | DoubleValue(float: Double)
    | BigdecimalValue(text: string)
    | DateValue(text: string)
    | TimeValue(text: string)
    | TimestampValue(text: string)
    | BlobValue(data: seq<Byte>)
    | ClobValue(text: string)
    | GeometryValue(wkb: seq<Byte>)
    | GeometryWithCrs(wkb: seq<Byte>, srid: Option<Int32>, crs: Option<string>)
    | GeographyValue(wkb: seq<Byte>)
    | GeographyWithCrs(wkb: seq<Byte>, srid: Option<Int32>, crs: Option<string>)
    | JsonValue(text: string)
    | XmlValue(text: string)
    | ArrayValue(elementType: TypeDescriptor, elements: seq<WireValue>)
    | LobValue(reference: LobReference)

  /**
   * The library calls whose inner workings the model leaves open: `fromInt` rounds an
   * integer to a float, if it is not too large, and `single` rounds a float to the single
   * precision that a message's FLOAT field keeps.
   */
  datatype Library = Library(
    jsonLoads: string -> bool,
    jsonDumps: Value -> Option<string>,
    parseDecimal: string -> Option<Decimal>,
    fromInt: int -> Option<Double>,
    single: Double -> Double)

  // ---- checks made by the wrapper constructors ----

  predicate CharOk(text: string) { |text| == 1 && text[0] as int <= 0xFFFF }

  predicate SpatialOk(wkb: seq<Byte>, srid: Option<int>, crs: Option<string>) {
    && wkb != []
    && (srid.Some? ==> -0x8000_0000 <= srid.value < 0x8000_0000)
    && crs != Some("")
  }

  predicate LobReferenceOk(r: LobReference) {
    && r.lobId != "" && r.sessionId != ""
    && r.kind in {BLOB, CLOB}
    && (r.size.Some? ==> r.size.value >= 0)
    && r.expires.Some? && r.expires.value > 0
  }

  /** What Python's and the wrappers' constructors guarantee of every existing object. */
  predicate WellMade(lib: Library, v: Value) {
    match v
    case Char(text) => CharOk(text)
    case Dec(d) => d.finite ==> lib.parseDecimal(d.text) == Some(d)
    case Datetime(date, time, _) => ValidDate(date) && ValidTime(time)
    case DateOnly(date) => ValidDate(date)
    case TimeOnly(time, _) => ValidTime(time)
    case LocalTimestamp(text) => IsLocalTimestamp(text)
    case LocalTime(text) => IsLocalTime(text)
    case Json(text) => lib.jsonLoads(text)
    case Spatial(wkb, _, srid, crs) => SpatialOk(wkb, srid, crs)
    case Array(elements, elementType) =>
      && ValidateTypeDescriptor(elementType).Success?
      && forall e | e in elements :: WellMade(lib, e)
    case List(elements) => forall e | e in elements :: WellMade(lib, e)
    case LobRef(r) => LobReferenceOk(r)
    case _ => true
  }

  // ---- encoding ----

  function EncodeSpatial(wkb: seq<Byte>, geography: bool, srid: Option<int>, crs: Option<string>): WireValue
    requires SpatialOk(wkb, srid, crs)
  {
    var wireSrid: Option<Int32> := if srid.Some? then Some(srid.value) else None;
    if geography then GeographyWithCrs(wkb, wireSrid, crs) else GeometryWithCrs(wkb, wireSrid, crs)
  }

  function DecimalText(d: Decimal): (r: Result<string, Error>)
    ensures r.Failure? ==> r.error == CodecError
  {
    if !d.finite then Failure(CodecError) else Success(d.text)
  }

  /** `KublingLocalTime.from_time`: an aware time is refused. */
  function FromTime(time: Time, aware: bool): (r: Result<string, Error>)
    ensures r.Failure? ==> r.error == CodecError
  {
    if aware then Failure(CodecError) else Success(TimeText(time))
  }

  function FromDatetime(date: Date, time: Time, aware: bool): (r: Result<string, Error>)
    ensures r.Failure? ==> r.error == CodecError
  {
    if aware then Failure(CodecError) else Success(TimestampText(date, time))
  }

  /** `KublingJson.from_value`: dump, then let the constructor load the text again. */
  function JsonFromValue(lib: Library, v: Value): (r: Result<string, Error>)
    ensures r.Failure? ==> r.error == CodecError
  {
    match lib.jsonDumps(v)
    case None => Failure(CodecError)
    case Some(text) => if lib.jsonLoads(text) then Success(text) else Failure(CodecError)
  }

  function EncodeInteger(valueType: ValueType, n: int): (r: Result<WireValue, Error>)
    ensures r.Failure? ==> r.error == CodecError
    requires valueType in {BYTE, SHORT, INTEGER, LONG, BIGINTEGER}
  {
    match valueType
    case BYTE => if -128 <= n <= 127 then Success(ByteValue(n)) else Failure(CodecError)
    case SHORT => if -0x8000 <= n <= 0x7FFF then Success(ShortValue(n)) else Failure(CodecError)
    case INTEGER =>
      if -0x8000_0000 <= n <= 0x7FFF_FFFF then Success(IntegerValue(n)) else Failure(CodecError)
    case LONG =>
      if -0x8000_0000_0000_0000 <= n <= 0x7FFF_FFFF_FFFF_FFFF then Success(LongValue(n)) else Failure(CodecError)
    case _ => Success(BigintegerValue(IntText(n)))
  }

  /** `float(value)` of a number; an integer that is too large raises Python's own error. */
  function FloatOf(lib: Library, v: Value): (r: Result<Double, Error>)
    ensures r.Failure? ==> r.error in {CodecError, OverflowError}
  {
    match v
    case Float(x) => Success(x)
    case Int(n) => if lib.fromInt(n).Some? then Success(lib.fromInt(n).value) else Failure(OverflowError)
    case _ => Failure(CodecError)
  }

  /** A non-null value under a declared type other than ARRAY. */
  function EncodeScalar(lib: Library, v: Value, valueType: ValueType): (r: Result<WireValue, Error>)
    ensures r.Failure? ==> r.error in {CodecError, OverflowError}
    requires WellMade(lib, v)
  {
    match valueType
    case STRING => if v.Str? then Success(StringValue(v.text)) else Failure(CodecError)
    case VARBINARY => if v.Bytes? then Success(VarbinaryValue(v.data)) else Failure(CodecError)
    case CHAR =>
      if (v.Str? && CharOk(v.text)) || v.Char? then Success(CharValue(v.text)) else Failure(CodecError)
    case BOOLEAN => if v.Bool? then Success(BooleanValue(v.flag)) else Failure(CodecError)
    case BYTE | SHORT | INTEGER | LONG | BIGINTEGER =>
      if v.Int? then EncodeInteger(valueType, v.number) else Failure(CodecError)
    case FLOAT =>
      var x :- FloatOf(lib, v);
      Success(FloatValue(lib.single(x)))
    case DOUBLE =>
      var x :- FloatOf(lib, v);
      Success(DoubleValue(x))
    case BIGDECIMAL =>
      if !v.Dec? then Failure(CodecError)
      else
        var text :- DecimalText(v.decimal);
        Success(BigdecimalValue(text))
    case DATE => if v.DateOnly? then Success(DateValue(DateText(v.date))) else Failure(CodecError)
    case TIME =>
      if v.LocalTime? then Success(TimeValue(v.text))
      else if v.TimeOnly? then
        var text :- FromTime(v.time, v.aware);
        Success(TimeValue(text))
      else Failure(CodecError)
    case TIMESTAMP =>
      if v.LocalTimestamp? then Success(TimestampValue(v.text))
      else if v.Datetime? then
        var text :- FromDatetime(v.date, v.time, v.aware);
        Success(TimestampValue(text))
      else Failure(CodecError)
    case BLOB =>
      if v.LobRef? then Success(LobValue(v.reference))
      else if v.Blob? || v.Bytes? then Success(BlobValue(v.data))
      else Failure(CodecError)
    case CLOB =>
      if v.LobRef? then Success(LobValue(v.reference))
      else if v.Clob? || v.Str? then Success(ClobValue(v.text))
      else Failure(CodecError)
    case GEOMETRY | GEOGRAPHY =>
      if v.Bytes? then
        if SpatialOk(v.data, None, None) then Success(EncodeSpatial(v.data, valueType == GEOGRAPHY, None, None))
        else Failure(CodecError)
      else if v.Spatial? && v.geography == (valueType == GEOGRAPHY) then
        Success(EncodeSpatial(v.wkb, v.geography, v.srid, v.crs))
      else Failure(CodecError)
    case JSON =>
      if v.Json? then Success(JsonValue(v.text))
      else
        var text :- JsonFromValue(lib, v);
        Success(JsonValue(text))
    case XML => if v.Xml? || v.Str? then Success(XmlValue(v.text)) else Failure(CodecError)
    case _ => Failure(CodecError)
  }

  /** `encode_value` with a declared type. */
  function Encode(lib: Library, v: Value, d: TypeDescriptor): (r: Result<WireValue, Error>)
    ensures r.Failure? ==> r.error in {CodecError, OverflowError}
    requires WellMade(lib, v)
    decreases v, 1
  {
    if ValidateTypeDescriptor(d).Failure? then Failure(CodecError)
    else if v.Null? then Success(NullValue)
    else if d.valueType != ARRAY then EncodeScalar(lib, v, d.valueType)
    else if v.Array? && v.elementType != d.element.value then Failure(CodecError)
    else if v.Array? || v.List? then
      var elements :- EncodeAll(lib, v.elements, d.element.value);
      Success(ArrayValue(d.element.value, elements))
    else Failure(CodecError)
  }

  function EncodeAll(lib: Library, vs: seq<Value>, d: TypeDescriptor): (r: Result<seq<WireValue>, Error>)
    ensures r.Failure? ==> r.error in {CodecError, OverflowError}
    requires forall v | v in vs :: WellMade(lib, v)
    ensures r.Success? ==> |r.value| == |vs|
    decreases vs, 0
  {
    if vs == [] then Success([])
    else
      var first :- Encode(lib, vs[0], d);
      var rest :- EncodeAll(lib, vs[1..], d);
      Success([first] + rest)
  }

  /** `encode_value` without a declared type: the Python type picks the wire kind. */
  function EncodeUndeclared(lib: Library, v: Value): (r: Result<WireValue, Error>)
    ensures r.Failure? ==> r.error in {CodecError, OverflowError}
    requires WellMade(lib, v)
  {
    match v
    case Null => Success(NullValue)
    case Char(text) => Success(CharValue(text))
    case Bool(flag) => Success(BooleanValue(flag))
    case Int(n) =>
      if -0x8000_0000 <= n < 0x8000_0000 then Success(IntegerValue(n))
      else if -0x8000_0000_0000_0000 <= n < 0x8000_0000_0000_0000 then Success(LongValue(n))
      else Success(BigintegerValue(IntText(n)))
    case Float(x) => Success(DoubleValue(x))
    case Dec(d) =>
      var text :- DecimalText(d);
      Success(BigdecimalValue(text))
    case Datetime(date, time, aware) =>
      var text :- FromDatetime(date, time, aware);
      Success(TimestampValue(text))
    case DateOnly(date) => Success(DateValue(DateText(date)))
    case TimeOnly(time, aware) =>
      var text :- FromTime(time, aware);
      Success(TimeValue(text))
    case LocalTimestamp(text) => Success(TimestampValue(text))
    case LocalTime(text) => Success(TimeValue(text))
    case Str(text) => Success(StringValue(text))
    case Bytes(data) => Success(VarbinaryValue(data))
    case Json(text) => Success(JsonValue(text))
    case Xml(text) => Success(XmlValue(text))
    case Blob(data) => Success(BlobValue(data))
    case Clob(text) => Success(ClobValue(text))
    case Spatial(wkb, geography, srid, crs) => Success(EncodeSpatial(wkb, geography, srid, crs))
    case Array(_, elementType) => Encode(lib, v, ArrayOf(elementType))
    case LobRef(r) => Success(LobValue(r))
    case _ => Failure(CodecError)
  }

  // ---- decoding ----

  /** The wire kinds a declared type admits. */
  predicate KindFits(w: WireValue, valueType: ValueType) {
    match valueType
    case STRING => w.StringValue?
    case VARBINARY => w.VarbinaryValue?
    case CHAR => w.CharValue?
    case BOOLEAN => w.BooleanValue?
    case BYTE => w.ByteValue?
    case SHORT => w.ShortValue?
    case INTEGER => w.IntegerValue?
    case LONG => w.LongValue?
    case BIGINTEGER => w.BigintegerValue?
    case FLOAT => w.FloatValue?
    case DOUBLE => w.DoubleValue?
    case BIGDECIMAL => w.BigdecimalValue?
    case DATE => w.DateValue?
    case TIME => w.TimeValue?
    case TIMESTAMP => w.TimestampValue?
    case BLOB => w.BlobValue? || w.LobValue?
    case CLOB => w.ClobValue? || w.LobValue?
    case GEOMETRY => w.GeometryValue? || w.GeometryWithCrs?
    case GEOGRAPHY => w.GeographyValue? || w.GeographyWithCrs?
    case JSON => w.JsonValue?
    case XML => w.XmlValue?
    case ARRAY => w.ArrayValue?
    case _ => false
  }

  /** `_validate_wire_type`: the kind, a LOB reference's own type, an array's element type. */
  function ValidateWireType(w: WireValue, d: TypeDescriptor): Result<(), Error> {
    if w.NullValue? then Success(())
    else if !KindFits(w, d.valueType) then Failure(CodecError)
    else if w.LobValue? && w.reference.kind != d.valueType then Failure(CodecError)
    else if w.ArrayValue? && d.element != Some(w.elementType) then Failure(CodecError)
    else Success(())
  }

  function Checked(ok: bool, v: Value): Result<Value, Error> {
    if ok then Success(v) else Failure(CodecError)
  }

  /** Every selected kind other than an array. */
  function DecodeScalar(lib: Library, w: WireValue): Result<Value, Error>
    requires !w.ArrayValue?
  {
    match w
    case NullValue => Success(Null)
    case StringValue(text) => Success(Str(text))
    case VarbinaryValue(data) => Success(Bytes(data))
    case CharValue(text) => Checked(CharOk(text), Char(text))
    case BooleanValue(flag) => Success(Bool(flag))
    case ByteValue(n) => Checked(-128 <= n <= 127, Int(n))
    case ShortValue(n) => Checked(-0x8000 <= n <= 0x7FFF, Int(n))
    case IntegerValue(n) => Success(Int(n))
    case LongValue(n) => Success(Int(n))
    case BigintegerValue(text) =>
      (match ParseInt(text)
       case Some(n) => Success(Int(n))
       case None => Failure(CodecError))
    case FloatValue(x) => Success(Float(x))
    case DoubleValue(x) => Success(Float(x))
    case BigdecimalValue(text) =>
      (match lib.parseDecimal(text)
       case Some(d) => Checked(d.finite, Dec(d))
       case None => Failure(CodecError))
    case DateValue(text) =>
      (match ParseDate(text)
       case Some(date) => Success(DateOnly(date))
       case None => Failure(CodecError))
    case TimeValue(text) => Checked(IsLocalTime(text), LocalTime(text))
    case TimestampValue(text) => Checked(IsLocalTimestamp(text), LocalTimestamp(text))
    case BlobValue(data) => Success(Blob(data))
    case ClobValue(text) => Success(Clob(text))
    case XmlValue(text) => Success(Xml(text))
    case JsonValue(text) => Checked(lib.jsonLoads(text), Json(text))
    case GeometryValue(wkb) => Checked(SpatialOk(wkb, None, None), Spatial(wkb, false, None, None))
    case GeographyValue(wkb) => Checked(SpatialOk(wkb, None, None), Spatial(wkb, true, None, None))
    case GeometryWithCrs(wkb, srid, crs) => Checked(SpatialOk(wkb, srid, crs), Spatial(wkb, false, srid, crs))
    case GeographyWithCrs(wkb, srid, crs) => Checked(SpatialOk(wkb, srid, crs), Spatial(wkb, true, srid, crs))
    case LobValue(r) => Checked(LobReferenceOk(r), LobRef(r))
    case NoKind => Failure(CodecError)
  }

  /** `decode_value` once the declared type, if any, has been checked. */
  function DecodeKind(lib: Library, w: WireValue): Result<Value, Error>
    decreases w, 0
  {
    if !w.ArrayValue? then DecodeScalar(lib, w)
    else if ValidateTypeDescriptor(ArrayOf(w.elementType)).Failure? then Failure(CodecError)
    else
      var elements :- DecodeAll(lib, w.elements, w.elementType);
      Success(Array(elements, w.elementType))
  }

  /** `decode_value` with a declared type. */
  function Decode(lib: Library, w: WireValue, d: TypeDescriptor): Result<Value, Error>
    decreases w, 1
  {
    if w.NoKind? || ValidateTypeDescriptor(d).Failure? then Failure(CodecError)
    else
      var _ :- ValidateWireType(w, d);
      DecodeKind(lib, w)
  }

  function DecodeAll(lib: Library, ws: seq<WireValue>, d: TypeDescriptor): (r: Result<seq<Value>, Error>)
    ensures r.Success? ==> |r.value| == |ws|
    decreases ws, 0
  {
    if ws == [] then Success([])
    else
      var first :- Decode(lib, ws[0], d);
      var rest :- DecodeAll(lib, ws[1..], d);
      Success([first] + rest)
  }

  // ---- inference ----

  function ScalarTypeOf(w: WireValue): Option<ValueType> {
    match w
    case StringValue(_) => Some(STRING)
    case VarbinaryValue(_) => Some(VARBINARY)
    case CharValue(_) => Some(CHAR)
    case BooleanValue(_) => Some(BOOLEAN)
    case ByteValue(_) => Some(BYTE)
    case ShortValue(_) => Some(SHORT)
    case IntegerValue(_) => Some(INTEGER)
    case LongValue(_) => Some(LONG)
    case BigintegerValue(_) => Some(BIGINTEGER)
    case FloatValue(_) => Some(FLOAT)
    case DoubleValue(_) => Some(DOUBLE)
    case BigdecimalValue(_) => Some(BIGDECIMAL)
    case DateValue(_) => Some(DATE)
    case TimeValue(_) => Some(TIME)
    case TimestampValue(_) => Some(TIMESTAMP)
    case BlobValue(_) => Some(BLOB)
    case ClobValue(_) => Some(CLOB)
    case GeometryValue(_) => Some(GEOMETRY)
    case GeometryWithCrs(_, _, _) => Some(GEOMETRY)
    case GeographyValue(_) => Some(GEOGRAPHY)
    case GeographyWithCrs(_, _, _) => Some(GEOGRAPHY)
    case JsonValue(_) => Some(JSON)
    case XmlValue(_) => Some(XML)
    case LobValue(r) => Some(r.kind)
    case _ => None
  }

  /** `infer_type_descriptor`: nothing for null, otherwise a validated descriptor. */
  function Infer(w: WireValue): (r: Result<Option<TypeDescriptor>, Error>)
    ensures r.Failure? ==> r.error == CodecError
  {
    if w.NoKind? || w.NullValue? then Success(None)
    else
      var d := if w.ArrayValue? then ArrayOf(w.elementType) else Plain(ScalarTypeOf(w).value);
      var _ :- ValidateTypeDescriptor(d);
      Success(Some(d))
  }
}
