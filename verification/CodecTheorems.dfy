/** What encoding under a declared type and decoding back does to a value. */
module CodecTheorems {
  import opened Wrappers
  import opened Errors
  import opened Descriptors
  import opened LocalTimes
  import opened Numerals
  import opened Codec

  // ---- canonical forms ----

  /** The value a type other than ARRAY hands back for a value it accepted. */
  function CanonicalScalar(lib: Library, v: Value, valueType: ValueType): Value {
    match valueType
    case CHAR => if v.Str? then Char(v.text) else v
    case FLOAT => if FloatOf(lib, v).Success? then Float(lib.single(FloatOf(lib, v).value)) else v
    case DOUBLE => if FloatOf(lib, v).Success? then Float(FloatOf(lib, v).value) else v
    case TIME => if v.TimeOnly? then LocalTime(TimeText(v.time)) else v
    case TIMESTAMP => if v.Datetime? then LocalTimestamp(TimestampText(v.date, v.time)) else v
    case BLOB => if v.Bytes? then Blob(v.data) else v
    case CLOB => if v.Str? then Clob(v.text) else v
    case GEOMETRY | GEOGRAPHY =>
      if v.Bytes? then Spatial(v.data, valueType == GEOGRAPHY, None, None) else v
    case JSON => if !v.Json? && lib.jsonDumps(v).Some? then Json(lib.jsonDumps(v).value) else v
    case XML => if v.Str? then Xml(v.text) else v
    case _ => v
  }

  /** The canonical form of a value under a declared type, inside arrays as well. */
  function Canonical(lib: Library, v: Value, d: TypeDescriptor): Value
    decreases v, 1
  {
    if v.Null? then v
    else if d.valueType != ARRAY then CanonicalScalar(lib, v, d.valueType)
    else if (v.Array? || v.List?) && d.element.Some? then
      Array(CanonicalAll(lib, v.elements, d.element.value), d.element.value)
    else v
  }

  function CanonicalAll(lib: Library, vs: seq<Value>, d: TypeDescriptor): (r: seq<Value>)
    ensures |r| == |vs|
    decreases vs, 0
  {
    if vs == [] then [] else [Canonical(lib, vs[0], d)] + CanonicalAll(lib, vs[1..], d)
  }

  /** Every LOB reference standing at a BLOB or CLOB position has that very type. */
  predicate LobsAgree(v: Value, d: TypeDescriptor)
    decreases v
  {
    if v.LobRef? && d.valueType in {BLOB, CLOB} then v.reference.kind == d.valueType
    else if (v.Array? || v.List?) && d.valueType == ARRAY && d.element.Some? then
      forall e | e in v.elements :: LobsAgree(e, d.element.value)
    else true
  }

  /** A wire value fits its descriptor, and so do the elements at every depth. */
  predicate WellTyped(w: WireValue, d: TypeDescriptor)
    decreases w
  {
    && !w.NoKind?
    && ValidateWireType(w, d).Success?
    && (w.ArrayValue? ==> forall e | e in w.elements :: WellTyped(e, w.elementType))
  }

  // ---- scalars ----

  lemma IntegerRoundTrip(lib: Library, n: int, valueType: ValueType)
    requires valueType in {BYTE, SHORT, INTEGER, LONG, BIGINTEGER}
    requires EncodeInteger(valueType, n).Success?
    ensures var w := EncodeInteger(valueType, n).value;
            KindFits(w, valueType) && !w.ArrayValue? && !w.LobValue? && DecodeScalar(lib, w) == Success(Int(n))
  {
    hide ParseInt, IntText;
    ParseIntOfText(n);
  }

  lemma TemporalRoundTrip(lib: Library, v: Value, valueType: ValueType)
    requires WellMade(lib, v) && valueType in {DATE, TIME, TIMESTAMP}
    requires EncodeScalar(lib, v, valueType).Success?
    ensures var w := EncodeScalar(lib, v, valueType).value;
            && KindFits(w, valueType) && !w.ArrayValue? && !w.LobValue?
            && DecodeScalar(lib, w) == Success(CanonicalScalar(lib, v, valueType))
  {
    hide DateText, ParseDate, TimeText, ParseLocalTime, TimestampText, ParseLocalTimestamp, ToTime, ToDatetime;
    match v
    case DateOnly(date) => ParseOfDateText(date);
    case TimeOnly(time, _) => TimeRoundTrip(time);
    case Datetime(date, time, _) => TimestampRoundTrip(date, time);
    case _ =>
  }

  lemma SpatialRoundTrip(lib: Library, v: Value, valueType: ValueType)
    requires WellMade(lib, v) && valueType in {GEOMETRY, GEOGRAPHY}
    requires EncodeScalar(lib, v, valueType).Success?
    ensures var w := EncodeScalar(lib, v, valueType).value;
            && KindFits(w, valueType) && !w.ArrayValue? && !w.LobValue?
            && DecodeScalar(lib, w) == Success(CanonicalScalar(lib, v, valueType))
  {
  }

  /** Under a scalar type only a LOB reference of the other LOB type fails to come back. */
  lemma ScalarRoundTrip(lib: Library, v: Value, d: TypeDescriptor, w: WireValue)
    requires WellMade(lib, v) && !v.Null? && d.valueType != ARRAY
    requires EncodeScalar(lib, v, d.valueType) == Success(w)
    ensures !w.NoKind? && !w.NullValue? && !w.ArrayValue? && KindFits(w, d.valueType)
    ensures w.LobValue? <==> v.LobRef? && d.valueType in {BLOB, CLOB}
    ensures w.LobValue? ==> w.reference == v.reference
    ensures DecodeScalar(lib, w) == Success(CanonicalScalar(lib, v, d.valueType))
  {
    hide EncodeInteger, EncodeSpatial, FromTime, FromDatetime, TimeText, DateText, TimestampText, ParseInt,
         ParseDate, IsLocalTime, IsLocalTimestamp, SpatialOk;
    if d.valueType in {BYTE, SHORT, INTEGER, LONG, BIGINTEGER} {
      IntegerRoundTrip(lib, v.number, d.valueType);
    } else if d.valueType in {DATE, TIME, TIMESTAMP} {
      TemporalRoundTrip(lib, v, d.valueType);
    } else if d.valueType in {GEOMETRY, GEOGRAPHY} {
      SpatialRoundTrip(lib, v, d.valueType);
    }
  }

  // ---- the round trip ----

  /**
   * Encoding a value and decoding the result returns the value's canonical form, and the
   * wire value is well typed at every depth, exactly when its LOB references agree with
   * the types they stand under; otherwise decoding is refused.
   */
  lemma {:induction false} RoundTrip(lib: Library, v: Value, d: TypeDescriptor, w: WireValue)
    requires WellMade(lib, v) && Encode(lib, v, d) == Success(w)
    ensures WellTyped(w, d) <==> LobsAgree(v, d)
    ensures Decode(lib, w, d) == if LobsAgree(v, d) then Success(Canonical(lib, v, d)) else Failure(CodecError)
    decreases v, 1
  {
    hide EncodeScalar, CanonicalScalar;
    if v.Null? {
    } else if d.valueType != ARRAY {
      RoundTripOfScalar(lib, v, d, w);
    } else {
      ArrayValidation(d);
      RoundTripAll(lib, v.elements, d.element.value, w.elements);
    }
  }

  lemma RoundTripOfScalar(lib: Library, v: Value, d: TypeDescriptor, w: WireValue)
    requires WellMade(lib, v) && !v.Null? && d.valueType != ARRAY && Encode(lib, v, d) == Success(w)
    ensures WellTyped(w, d) <==> LobsAgree(v, d)
    ensures Decode(lib, w, d) == if LobsAgree(v, d) then Success(Canonical(lib, v, d)) else Failure(CodecError)
  {
    hide EncodeScalar, CanonicalScalar, DecodeScalar, KindFits, WellMade;
    ScalarRoundTrip(lib, v, d, w);
  }

  lemma {:induction false} RoundTripAll(lib: Library, vs: seq<Value>, d: TypeDescriptor, ws: seq<WireValue>)
    requires forall v | v in vs :: WellMade(lib, v)
    requires EncodeAll(lib, vs, d) == Success(ws)
    ensures (forall w | w in ws :: WellTyped(w, d)) <==> forall v | v in vs :: LobsAgree(v, d)
    ensures DecodeAll(lib, ws, d) ==
            if forall v | v in vs :: LobsAgree(v, d) then Success(CanonicalAll(lib, vs, d))
            else Failure(CodecError)
    decreases vs, 0
  {
    hide Encode, Decode, WellTyped, LobsAgree, Canonical, WellMade;
    if vs != [] {
      RoundTrip(lib, vs[0], d, ws[0]);
      assert ws[1..] == EncodeAll(lib, vs[1..], d).value;
      RoundTripAll(lib, vs[1..], d, ws[1..]);
      assert vs == [vs[0]] + vs[1..] && ws == [ws[0]] + ws[1..];
      assert (forall v | v in vs :: LobsAgree(v, d)) <==>
             LobsAgree(vs[0], d) && forall v | v in vs[1..] :: LobsAgree(v, d);
      assert (forall w | w in ws :: WellTyped(w, d)) <==>
             WellTyped(ws[0], d) && forall w | w in ws[1..] :: WellTyped(w, d);
    }
  }

  /** A validated array descriptor's element descriptor is validated too, and conversely. */
  lemma ArrayValidation(d: TypeDescriptor)
    requires ValidateTypeDescriptor(d).Success? && d.valueType == ARRAY
    ensures d.element.Some? && ValidateTypeDescriptor(d.element.value).Success?
    ensures ValidateTypeDescriptor(ArrayOf(d.element.value)).Success?
  {
  }

  /** The LOB condition is not automatic: a CLOB reference encodes under BLOB. */
  lemma MismatchedLobReference(lib: Library)
    ensures exists v: Value, d: TypeDescriptor ::
              && WellMade(lib, v)
              && Encode(lib, v, d).Success?
              && Decode(lib, Encode(lib, v, d).value, d).Failure?
  {
    var v := LobRef(LobReference("lob", CLOB, "session", None, Some(1)));
    var d := Plain(BLOB);
    assert Encode(lib, v, d) == Success(LobValue(v.reference));
    assert Decode(lib, LobValue(v.reference), d).Failure?;
  }

  // ---- what comes back ----

  /** The kind of value a declared type brings back. */
  predicate ValueFits(v: Value, valueType: ValueType) {
    match valueType
    case STRING => v.Str?
    case VARBINARY => v.Bytes?
    case CHAR => v.Char?
    case BOOLEAN => v.Bool?
    case BYTE => v.Int? && -128 <= v.number <= 127
    case SHORT => v.Int? && -32768 <= v.number <= 32767
    case INTEGER => v.Int? && -2147483648 <= v.number <= 2147483647
    case LONG => v.Int? && -9223372036854775808 <= v.number <= 9223372036854775807
    case BIGINTEGER => v.Int?
    case FLOAT | DOUBLE => v.Float?
    case BIGDECIMAL => v.Dec? && v.decimal.finite
    case DATE => v.DateOnly? && ValidDate(v.date)
    case TIME => v.LocalTime? && IsLocalTime(v.text)
    case TIMESTAMP => v.LocalTimestamp? && IsLocalTimestamp(v.text)
    case BLOB => v.Blob? || (v.LobRef? && v.reference.kind == BLOB)
    case CLOB => v.Clob? || (v.LobRef? && v.reference.kind == CLOB)
    case GEOMETRY => v.Spatial? && !v.geography
    case GEOGRAPHY => v.Spatial? && v.geography
    case JSON => v.Json?
    case XML => v.Xml?
    case ARRAY => v.Array?
    case _ => false
  }

  /** What a value holds, whatever wrapper it came in, a value of the declared type holds as well. */
  predicate SameContent(lib: Library, v: Value, back: Value, d: TypeDescriptor)
    decreases v
  {
    if d.valueType == ARRAY && d.element.Some? && v.Array? then
      && back.Array? && d.element == Some(back.elementType)
      && SameContents(lib, v.elements, back.elements, d.element.value)
    else if d.valueType == ARRAY && d.element.Some? && v.List? then
      && back.Array? && d.element == Some(back.elementType)
      && SameContents(lib, v.elements, back.elements, d.element.value)
    else
      SameScalar(lib, v, back, d.valueType)
  }

  predicate SameContents(lib: Library, vs: seq<Value>, backs: seq<Value>, d: TypeDescriptor)
    decreases vs
  {
    |backs| == |vs| && forall i :: 0 <= i < |vs| ==> SameContent(lib, vs[i], backs[i], d)
  }

  predicate SameScalar(lib: Library, v: Value, back: Value, valueType: ValueType) {
    if valueType == JSON && !v.Null? && !v.Json? then lib.jsonDumps(v).Some? && back == Json(lib.jsonDumps(v).value)
    else
      match v
      case Str(text) => back == v || back == Char(text) || back == Clob(text) || back == Xml(text)
      case Bytes(data) => back == v || back == Blob(data) || back == Spatial(data, valueType == GEOGRAPHY, None, None)
      case Int(n) =>
        if valueType == DOUBLE then lib.fromInt(n).Some? && back == Float(lib.fromInt(n).value)
        else if valueType == FLOAT then lib.fromInt(n).Some? && back == Float(lib.single(lib.fromInt(n).value))
        else back == v
      case Float(x) => back == Float(if valueType == FLOAT then lib.single(x) else x)
      case TimeOnly(time, _) => back.LocalTime? && ToTime(back.text) == Success(time)
      case Datetime(date, time, _) => back.LocalTimestamp? && ToDatetime(back.text) == Success((date, time))
      case _ => back == v
  }

  /**
   * What is encoded under a declared type and decoded again holds the same content, and is
   * of the kind that type brings back, inside arrays as well.
   */
  lemma {:induction false} ComesBackWithItsContent(lib: Library, v: Value, d: TypeDescriptor, w: WireValue, back: Value)
    requires WellMade(lib, v) && Encode(lib, v, d) == Success(w) && Decode(lib, w, d) == Success(back)
    ensures SameContent(lib, v, back, d)
    ensures back.Null? || ValueFits(back, d.valueType)
    decreases v, 1
  {
    hide EncodeScalar, CanonicalScalar, SameContent, ValueFits, WellTyped;
    RoundTrip(lib, v, d, w);
    if v.Null? {
      NullIsKept(lib, d);
    } else if d.valueType != ARRAY {
      ScalarKeepsContent(lib, v, d, w);
    } else {
      ArrayValidation(d);
      RoundTripAll(lib, v.elements, d.element.value, w.elements);
      ElementsKeepContent(lib, v.elements, d.element.value, w.elements, back.elements);
      ArrayKeepsContent(lib, v, d, back);
    }
  }

  lemma NullIsKept(lib: Library, d: TypeDescriptor)
    ensures SameContent(lib, Null, Null, d)
  {
  }

  lemma ArrayKeepsContent(lib: Library, v: Value, d: TypeDescriptor, back: Value)
    requires d.valueType == ARRAY && d.element.Some? && (v.Array? || v.List?) && back.Array?
    requires back.elementType == d.element.value && SameContents(lib, v.elements, back.elements, d.element.value)
    ensures SameContent(lib, v, back, d) && ValueFits(back, ARRAY)
  {
    hide SameContents;
  }

  lemma {:induction false} ElementsKeepContent(
    lib: Library, vs: seq<Value>, d: TypeDescriptor, ws: seq<WireValue>, backs: seq<Value>)
    requires forall v | v in vs :: WellMade(lib, v)
    requires EncodeAll(lib, vs, d) == Success(ws) && DecodeAll(lib, ws, d) == Success(backs)
    ensures SameContents(lib, vs, backs, d)
    decreases vs, 0
  {
    hide Encode, Decode, SameContent, WellMade;
    if vs != [] {
      ComesBackWithItsContent(lib, vs[0], d, ws[0], backs[0]);
      assert ws[1..] == EncodeAll(lib, vs[1..], d).value && backs[1..] == DecodeAll(lib, ws[1..], d).value;
      ElementsKeepContent(lib, vs[1..], d, ws[1..], backs[1..]);
      assert forall i :: 1 <= i < |vs| ==> vs[i] == vs[1..][i - 1] && backs[i] == backs[1..][i - 1];
    }
  }

  lemma ScalarKeepsContent(lib: Library, v: Value, d: TypeDescriptor, w: WireValue)
    requires WellMade(lib, v) && !v.Null? && d.valueType != ARRAY && EncodeScalar(lib, v, d.valueType) == Success(w)
    requires LobsAgree(v, d)
    ensures SameContent(lib, v, CanonicalScalar(lib, v, d.valueType), d)
    ensures ValueFits(CanonicalScalar(lib, v, d.valueType), d.valueType)
  {
    hide EncodeScalar, CanonicalScalar, SameScalar, ValueFits, WellMade;
    if d.valueType in {BYTE, SHORT, INTEGER, LONG, BIGINTEGER, FLOAT, DOUBLE, BIGDECIMAL, BOOLEAN} {
      NumberKeepsContent(lib, v, d.valueType, w);
    } else if d.valueType in {DATE, TIME, TIMESTAMP} {
      TimeKeepsContent(lib, v, d.valueType, w);
    } else if d.valueType in {BLOB, CLOB, GEOMETRY, GEOGRAPHY} {
      ObjectKeepsContent(lib, v, d, w);
    } else {
      TextKeepsContent(lib, v, d.valueType, w);
    }
  }

  lemma NumberKeepsContent(lib: Library, v: Value, valueType: ValueType, w: WireValue)
    requires WellMade(lib, v) && EncodeScalar(lib, v, valueType) == Success(w)
    requires valueType in {BYTE, SHORT, INTEGER, LONG, BIGINTEGER, FLOAT, DOUBLE, BIGDECIMAL, BOOLEAN}
    ensures SameScalar(lib, v, CanonicalScalar(lib, v, valueType), valueType)
    ensures ValueFits(CanonicalScalar(lib, v, valueType), valueType)
  {
    hide IntText;
  }

  lemma TimeKeepsContent(lib: Library, v: Value, valueType: ValueType, w: WireValue)
    requires WellMade(lib, v) && EncodeScalar(lib, v, valueType) == Success(w) && valueType in {DATE, TIME, TIMESTAMP}
    ensures SameScalar(lib, v, CanonicalScalar(lib, v, valueType), valueType)
    ensures ValueFits(CanonicalScalar(lib, v, valueType), valueType)
  {
    hide IsLocalTime, IsLocalTimestamp, TimeText, DateText, TimestampText, ToTime, ToDatetime, ValidDate;
    match v
    case TimeOnly(time, _) => TimeRoundTrip(time);
    case Datetime(date, time, _) => TimestampRoundTrip(date, time);
    case _ =>
  }

  lemma ObjectKeepsContent(lib: Library, v: Value, d: TypeDescriptor, w: WireValue)
    requires WellMade(lib, v) && EncodeScalar(lib, v, d.valueType) == Success(w)
    requires d.valueType in {BLOB, CLOB, GEOMETRY, GEOGRAPHY} && LobsAgree(v, d)
    ensures SameScalar(lib, v, CanonicalScalar(lib, v, d.valueType), d.valueType)
    ensures ValueFits(CanonicalScalar(lib, v, d.valueType), d.valueType)
  {
    hide SpatialOk, LobReferenceOk, EncodeSpatial;
  }

  lemma TextKeepsContent(lib: Library, v: Value, valueType: ValueType, w: WireValue)
    requires WellMade(lib, v) && !v.Null? && EncodeScalar(lib, v, valueType) == Success(w)
    requires valueType in {STRING, VARBINARY, CHAR, JSON, XML, UNKNOWN, ARRAY} || valueType.Unrecognized?
    ensures SameScalar(lib, v, CanonicalScalar(lib, v, valueType), valueType)
    ensures ValueFits(CanonicalScalar(lib, v, valueType), valueType)
  {
  }

  // ---- canonical forms are fixed points ----

  /** Rounding to single precision a second time changes nothing. */
  ghost predicate RoundsOnce(lib: Library) {
    forall x :: lib.single(lib.single(x)) == lib.single(x)
  }

  /** Re-encoding what decoding returned gives the same wire value again. */
  lemma {:induction false} CanonicalEncodesAlike(lib: Library, v: Value, d: TypeDescriptor)
    requires RoundsOnce(lib)
    requires WellMade(lib, v) && Encode(lib, v, d).Success?
    ensures WellMade(lib, Canonical(lib, v, d))
    ensures Encode(lib, Canonical(lib, v, d), d) == Encode(lib, v, d)
    decreases v, 1
  {
    if v.Null? {
    } else if d.valueType != ARRAY {
      CanonicalScalarEncodesAlike(lib, v, d.valueType);
    } else {
      ArrayValidation(d);
      CanonicalAllEncodesAlike(lib, v.elements, d.element.value);
    }
  }

  lemma CanonicalScalarEncodesAlike(lib: Library, v: Value, valueType: ValueType)
    requires RoundsOnce(lib)
    requires WellMade(lib, v) && !v.Null? && valueType != ARRAY
    requires EncodeScalar(lib, v, valueType).Success?
    ensures WellMade(lib, CanonicalScalar(lib, v, valueType))
    ensures !CanonicalScalar(lib, v, valueType).Null?
    ensures EncodeScalar(lib, CanonicalScalar(lib, v, valueType), valueType) == EncodeScalar(lib, v, valueType)
  {
    hide DateText, TimeText, TimestampText, ParseLocalTime, ParseLocalTimestamp, ToTime, ToDatetime, EncodeInteger,
         RoundsOnce, FloatOf;
    if valueType in {FLOAT, DOUBLE} {
      CanonicalFloatEncodesAlike(lib, v, valueType);
    } else {
      match v
      case TimeOnly(time, _) => TimeRoundTrip(time);
      case Datetime(date, time, _) => TimestampRoundTrip(date, time);
      case _ =>
    }
  }

  lemma CanonicalFloatEncodesAlike(lib: Library, v: Value, valueType: ValueType)
    requires RoundsOnce(lib) && WellMade(lib, v) && valueType in {FLOAT, DOUBLE}
    requires EncodeScalar(lib, v, valueType).Success?
    ensures CanonicalScalar(lib, v, valueType).Float?
    ensures EncodeScalar(lib, CanonicalScalar(lib, v, valueType), valueType) == EncodeScalar(lib, v, valueType)
  {
  }

  lemma {:induction false} CanonicalAllEncodesAlike(lib: Library, vs: seq<Value>, d: TypeDescriptor)
    requires RoundsOnce(lib)
    requires forall v | v in vs :: WellMade(lib, v)
    requires EncodeAll(lib, vs, d).Success?
    ensures forall v | v in CanonicalAll(lib, vs, d) :: WellMade(lib, v)
    ensures EncodeAll(lib, CanonicalAll(lib, vs, d), d) == EncodeAll(lib, vs, d)
    decreases vs, 0
  {
    if vs != [] {
      CanonicalEncodesAlike(lib, vs[0], d);
      CanonicalAllEncodesAlike(lib, vs[1..], d);
      var cs := CanonicalAll(lib, vs, d);
      assert cs[0] == Canonical(lib, vs[0], d) && cs[1..] == CanonicalAll(lib, vs[1..], d);
      assert forall c :: c in cs <==> c == cs[0] || c in cs[1..];
    }
  }

  // ---- decoding accepts only well-typed values ----

  lemma {:induction false} DecodedIsWellTyped(lib: Library, w: WireValue, d: TypeDescriptor)
    requires Decode(lib, w, d).Success?
    ensures WellTyped(w, d)
    decreases w, 1
  {
    if w.ArrayValue? {
      DecodedAllWellTyped(lib, w.elements, w.elementType);
    }
  }

  lemma {:induction false} DecodedAllWellTyped(lib: Library, ws: seq<WireValue>, d: TypeDescriptor)
    requires DecodeAll(lib, ws, d).Success?
    ensures forall w | w in ws :: WellTyped(w, d)
    decreases ws, 0
  {
    if ws != [] {
      DecodedIsWellTyped(lib, ws[0], d);
      DecodedAllWellTyped(lib, ws[1..], d);
      assert forall w :: w in ws <==> w == ws[0] || w in ws[1..];
    }
  }

  /** What is decoded under a type is null, or of the kind and in the range that type brings back. */
  lemma DecodedFits(lib: Library, w: WireValue, d: TypeDescriptor, v: Value)
    requires Decode(lib, w, d) == Success(v)
    ensures v.Null? <==> w.NullValue?
    ensures v.Null? || ValueFits(v, d.valueType)
  {
    hide ParseInt, ParseLocalTime, ParseLocalTimestamp, SpatialOk, CharOk, LobReferenceOk, DecodeAll;
  }

  // ---- which values go under which types ----

  /** A text that Python's JSON module makes of the value and takes back. */
  predicate Dumps(lib: Library, v: Value) {
    lib.jsonDumps(v).Some? && lib.jsonLoads(lib.jsonDumps(v).value)
  }

  /** The scalar types a value can be sent under. */
  predicate GoesUnder(lib: Library, v: Value, t: ValueType) {
    || (t == JSON && (v.Json? || Dumps(lib, v)))
    || match v
       case Str(text) => t == STRING || t == CLOB || t == XML || (t == CHAR && |text| == 1 && text[0] as int <= 0xFFFF)
       case Bytes(data) => t == VARBINARY || t == BLOB || ((t == GEOMETRY || t == GEOGRAPHY) && data != [])
       case Char(_) => t == CHAR
       case Bool(_) => t == BOOLEAN
       case Int(n) =>
         || (t == BYTE && -128 <= n <= 127)
         || (t == SHORT && -32768 <= n <= 32767)
         || (t == INTEGER && -2147483648 <= n <= 2147483647)
         || (t == LONG && -9223372036854775808 <= n <= 9223372036854775807)
         || t == BIGINTEGER
         || ((t == FLOAT || t == DOUBLE) && lib.fromInt(n).Some?)
       case Float(_) => t == FLOAT || t == DOUBLE
       case Dec(d) => t == BIGDECIMAL && d.finite
       case Datetime(_, _, aware) => t == TIMESTAMP && !aware
       case DateOnly(_) => t == DATE
       case TimeOnly(_, aware) => t == TIME && !aware
       case LocalTimestamp(_) => t == TIMESTAMP
       case LocalTime(_) => t == TIME
       case Xml(_) => t == XML
       case Blob(_) => t == BLOB
       case Clob(_) => t == CLOB
       case Spatial(_, geography, _, _) => t == if geography then GEOGRAPHY else GEOMETRY
       case LobRef(_) => t == BLOB || t == CLOB
       case _ => false
  }

  /** Under a scalar type exactly null and the values of its Python types are sent. */
  lemma EncodesExactly(lib: Library, v: Value, d: TypeDescriptor)
    requires WellMade(lib, v) && d.valueType != ARRAY
    ensures Encode(lib, v, d).Success? <==> WellFormed(d) && (v.Null? || GoesUnder(lib, v, d.valueType))
    ensures Encode(lib, v, d).Failure? ==>
              Encode(lib, v, d).error ==
              if WellFormed(d) && v.Int? && d.valueType in {FLOAT, DOUBLE} then OverflowError else CodecError
  {
    hide WellFormed, ValidateTypeDescriptor, GoesUnder, EncodeScalar, WellMade;
    ValidationIsWellFormedness(d);
    if WellFormed(d) && !v.Null? {
      assert d.valueType != UNKNOWN && !d.valueType.Unrecognized? by { KnownType(d); }
      ScalarEncodesExactly(lib, v, d.valueType);
    }
  }

  lemma KnownType(d: TypeDescriptor)
    requires WellFormed(d)
    ensures d.valueType != UNKNOWN && !d.valueType.Unrecognized?
  {
    ValidationIsWellFormedness(d);
  }

  /** What is sent under the type, and which error is raised otherwise. */
  predicate SentAs(lib: Library, v: Value, t: ValueType)
    requires WellMade(lib, v)
  {
    && (EncodeScalar(lib, v, t).Success? <==> GoesUnder(lib, v, t))
    && (EncodeScalar(lib, v, t).Failure? ==>
          EncodeScalar(lib, v, t).error == if v.Int? && t in {FLOAT, DOUBLE} then OverflowError else CodecError)
  }

  lemma ScalarEncodesExactly(lib: Library, v: Value, t: ValueType)
    requires WellMade(lib, v) && !v.Null? && t != ARRAY && t != UNKNOWN && !t.Unrecognized?
    ensures SentAs(lib, v, t)
  {
    hide SentAs, WellMade;
    if t in {BYTE, SHORT, INTEGER, LONG, BIGINTEGER} {
      IntegerEncodesExactly(lib, v, t);
    } else if t in {FLOAT, DOUBLE} {
      FloatEncodesExactly(lib, v, t);
    } else if t in {DATE, TIME, TIMESTAMP} {
      TimeEncodesExactly(lib, v, t);
    } else if t in {BOOLEAN, XML, BIGDECIMAL} {
      PlainEncodesExactly(lib, v, t);
    } else if t == JSON {
      JsonEncodesExactly(lib, v);
    } else if t in {STRING, VARBINARY, CHAR} {
      TextEncodesExactly(lib, v, t);
    } else if t in {BLOB, CLOB} {
      LargeEncodesExactly(lib, v, t);
    } else {
      SpatialEncodesExactly(lib, v, t);
    }
  }

  lemma IntegerEncodesExactly(lib: Library, v: Value, t: ValueType)
    requires WellMade(lib, v) && t in {BYTE, SHORT, INTEGER, LONG, BIGINTEGER}
    ensures SentAs(lib, v, t)
  {
    hide WellMade, IntText, Dumps;
  }

  lemma FloatEncodesExactly(lib: Library, v: Value, t: ValueType)
    requires WellMade(lib, v) && t in {FLOAT, DOUBLE}
    ensures SentAs(lib, v, t)
  {
    hide WellMade, Dumps;
  }

  lemma TimeEncodesExactly(lib: Library, v: Value, t: ValueType)
    requires WellMade(lib, v) && t in {DATE, TIME, TIMESTAMP}
    ensures SentAs(lib, v, t)
  {
    hide WellMade, DateText, TimeText, TimestampText, Dumps;
  }

  lemma PlainEncodesExactly(lib: Library, v: Value, t: ValueType)
    requires WellMade(lib, v) && t in {BOOLEAN, XML, BIGDECIMAL}
    ensures SentAs(lib, v, t)
  {
    hide WellMade, Dumps;
  }

  lemma JsonEncodesExactly(lib: Library, v: Value)
    requires WellMade(lib, v)
    ensures SentAs(lib, v, JSON)
  {
    JsonTakesWhatDumps(lib, v);
    hide WellMade, GoesUnder;
  }

  lemma JsonTakesWhatDumps(lib: Library, v: Value)
    ensures GoesUnder(lib, v, JSON) <==> v.Json? || Dumps(lib, v)
  {
    hide Dumps;
  }

  lemma TextEncodesExactly(lib: Library, v: Value, t: ValueType)
    requires WellMade(lib, v) && t in {STRING, VARBINARY, CHAR}
    ensures SentAs(lib, v, t)
  {
    hide ParseLocalTime, ParseLocalTimestamp, Dumps;
  }

  lemma LargeEncodesExactly(lib: Library, v: Value, t: ValueType)
    requires WellMade(lib, v) && t in {BLOB, CLOB}
    ensures SentAs(lib, v, t)
  {
    hide WellMade, Dumps;
  }

  lemma SpatialEncodesExactly(lib: Library, v: Value, t: ValueType)
    requires WellMade(lib, v) && t in {GEOMETRY, GEOGRAPHY}
    ensures SentAs(lib, v, t)
  {
    hide ParseLocalTime, ParseLocalTimestamp, Dumps;
  }

  /** Unbound, everything but other objects, lists, infinite decimals and aware times is sent. */
  lemma EncodesUndeclaredExactly(lib: Library, v: Value)
    requires WellMade(lib, v) && !v.Array?
    ensures EncodeUndeclared(lib, v).Success? <==>
            match v
            case Dec(d) => d.finite
            case Datetime(_, _, aware) => !aware
            case TimeOnly(_, aware) => !aware
            case List(_) => false
            case OtherObject => false
            case _ => true
  {
    hide WellMade, IntText, DateText, TimeText, TimestampText;
  }

  /** What each kind of wire value holds, and the type it comes under. */
  predicate KindHolds(lib: Library, w: WireValue, valueType: ValueType, v: Value) {
    match w
    case NoKind => false
    case NullValue => v == Null
    case StringValue(text) => valueType == STRING && v == Str(text)
    case VarbinaryValue(data) => valueType == VARBINARY && v == Bytes(data)
    case CharValue(text) => valueType == CHAR && v == Char(text)
    case BooleanValue(flag) => valueType == BOOLEAN && v == Bool(flag)
    case ByteValue(n) => valueType == BYTE && v == Int(n)
    case ShortValue(n) => valueType == SHORT && v == Int(n)
    case IntegerValue(n) => valueType == INTEGER && v == Int(n)
    case LongValue(n) => valueType == LONG && v == Int(n)
    case BigintegerValue(text) => valueType == BIGINTEGER && v.Int? && ParseInt(text) == Some(v.number)
    case FloatValue(x) => valueType == FLOAT && v == Float(x)
    case DoubleValue(x) => valueType == DOUBLE && v == Float(x)
    case BigdecimalValue(text) => valueType == BIGDECIMAL && v.Dec? && lib.parseDecimal(text) == Some(v.decimal)
    case DateValue(text) => valueType == DATE && v.DateOnly? && text == DateText(v.date)
    case TimeValue(text) => valueType == TIME && v == LocalTime(text)
    case TimestampValue(text) => valueType == TIMESTAMP && v == LocalTimestamp(text)
    case BlobValue(data) => valueType == BLOB && v == Blob(data)
    case ClobValue(text) => valueType == CLOB && v == Clob(text)
    case XmlValue(text) => valueType == XML && v == Xml(text)
    case JsonValue(text) => valueType == JSON && v == Json(text)
    case GeometryValue(wkb) => valueType == GEOMETRY && v == Spatial(wkb, false, None, None)
    case GeographyValue(wkb) => valueType == GEOGRAPHY && v == Spatial(wkb, true, None, None)
    case GeometryWithCrs(wkb, srid, crs) => valueType == GEOMETRY && v == Spatial(wkb, false, srid, crs)
    case GeographyWithCrs(wkb, srid, crs) => valueType == GEOGRAPHY && v == Spatial(wkb, true, srid, crs)
    case LobValue(r) => valueType in {BLOB, CLOB} && valueType == r.kind && v == LobRef(r)
    case ArrayValue(elementType, _) => valueType == ARRAY && v.Array? && v.elementType == elementType
  }

  /** What is decoded is what the wire value holds. */
  lemma DecodedIsHeld(lib: Library, w: WireValue, d: TypeDescriptor, v: Value)
    requires Decode(lib, w, d) == Success(v)
    ensures KindHolds(lib, w, d.valueType, v)
  {
    hide ValidateTypeDescriptor, KindFits, DecodeScalar, DecodeAll, KindHolds;
    if w.NullValue? || w.ArrayValue? || w.LobValue? {
      OtherKindsHold(lib, w, d, v);
    } else {
      ScalarIsHeld(lib, w, d.valueType, v);
    }
  }

  lemma OtherKindsHold(lib: Library, w: WireValue, d: TypeDescriptor, v: Value)
    requires Decode(lib, w, d) == Success(v) && (w.NullValue? || w.ArrayValue? || w.LobValue?)
    ensures KindHolds(lib, w, d.valueType, v)
  {
    hide ValidateTypeDescriptor, DecodeAll, LobReferenceOk;
  }

  lemma ScalarIsHeld(lib: Library, w: WireValue, valueType: ValueType, v: Value)
    requires KindFits(w, valueType) && !w.NullValue? && !w.ArrayValue? && !w.LobValue?
    requires DecodeScalar(lib, w) == Success(v)
    ensures KindHolds(lib, w, valueType, v)
  {
    hide ParseInt, ParseDate, DateText, ParseLocalTime, ParseLocalTimestamp, SpatialOk, CharOk;
    if w.DateValue? {
      DateOfText(w.text);
    }
  }

  /** An array decodes exactly when each element does under the element type, and holds them in order. */
  lemma ArraysDecodeInOrder(lib: Library, elementType: TypeDescriptor, elements: seq<WireValue>, d: TypeDescriptor)
    ensures var w := ArrayValue(elementType, elements);
            && (Decode(lib, w, d).Success? <==>
                  && WellFormed(d) && d.valueType == ARRAY && d.element == Some(elementType)
                  && forall i :: 0 <= i < |elements| ==> Decode(lib, elements[i], elementType).Success?)
            && (Decode(lib, w, d).Success? ==>
                  var v := Decode(lib, w, d).value;
                  && v.Array? && v.elementType == elementType && |v.elements| == |elements|
                  && forall i :: 0 <= i < |elements| ==>
                       Decode(lib, elements[i], elementType) == Success(v.elements[i]))
  {
    hide WellFormed, ValidateTypeDescriptor, DecodeAll;
    ValidationIsWellFormedness(d);
    if ValidateTypeDescriptor(d).Success? && d.valueType == ARRAY {
      ArrayValidation(d);
    }
    ElementsDecodeInOrder(lib, elements, elementType);
  }

  lemma {:induction false} ElementsDecodeInOrder(lib: Library, ws: seq<WireValue>, d: TypeDescriptor)
    ensures DecodeAll(lib, ws, d).Success? <==> forall i :: 0 <= i < |ws| ==> Decode(lib, ws[i], d).Success?
    ensures DecodeAll(lib, ws, d).Success? ==>
              forall i :: 0 <= i < |ws| ==> Decode(lib, ws[i], d) == Success(DecodeAll(lib, ws, d).value[i])
  {
    hide Decode;
    if ws != [] {
      ElementsDecodeInOrder(lib, ws[1..], d);
      assert forall i :: 0 < i < |ws| ==> ws[i] == ws[1..][i - 1];
      assert forall i :: 0 <= i < |ws| - 1 ==> ws[1..][i] == ws[i + 1];
    }
  }

  /** A list or an array is encoded exactly when each element is, under the element type, in order. */
  lemma ArraysEncodeInOrder(lib: Library, v: Value, d: TypeDescriptor)
    requires WellMade(lib, v) && (v.Array? || v.List?) && d.valueType == ARRAY && d.element.Some?
    ensures forall e | e in v.elements :: WellMade(lib, e)
    ensures && (Encode(lib, v, d).Success? <==>
                  && WellFormed(d) && (v.Array? ==> v.elementType == d.element.value)
                  && forall i :: 0 <= i < |v.elements| ==> Encode(lib, v.elements[i], d.element.value).Success?)
            && (Encode(lib, v, d).Success? ==>
                  var w := Encode(lib, v, d).value;
                  && w.ArrayValue? && w.elementType == d.element.value && |w.elements| == |v.elements|
                  && forall i :: 0 <= i < |v.elements| ==>
                       Encode(lib, v.elements[i], d.element.value) == Success(w.elements[i]))
  {
    hide WellFormed, ValidateTypeDescriptor, EncodeAll;
    ValidationIsWellFormedness(d);
    ElementsEncodeInOrder(lib, v.elements, d.element.value);
  }

  lemma {:induction false} ElementsEncodeInOrder(lib: Library, vs: seq<Value>, d: TypeDescriptor)
    requires forall v | v in vs :: WellMade(lib, v)
    ensures EncodeAll(lib, vs, d).Success? <==> forall i :: 0 <= i < |vs| ==> Encode(lib, vs[i], d).Success?
    ensures EncodeAll(lib, vs, d).Success? ==>
              forall i :: 0 <= i < |vs| ==> Encode(lib, vs[i], d) == Success(EncodeAll(lib, vs, d).value[i])
  {
    hide Encode, WellMade;
    if vs != [] {
      ElementsEncodeInOrder(lib, vs[1..], d);
      assert forall i :: 0 < i < |vs| ==> vs[i] == vs[1..][i - 1];
      assert forall i :: 0 <= i < |vs| - 1 ==> vs[1..][i] == vs[i + 1];
    }
  }

  /** Wire values that can be spelled in more than one way, or were rounded on the way. */
  predicate SeveralSpellings(w: WireValue) {
    || w.BigintegerValue? || w.BigdecimalValue? || w.DateValue? || w.FloatValue?
    || w.GeometryValue? || w.GeographyValue? || w.ArrayValue?
  }

  /** Every other wire value is what its decoded value encodes to under the same type. */
  lemma DecodedReencodes(lib: Library, w: WireValue, d: TypeDescriptor, v: Value)
    requires Decode(lib, w, d) == Success(v) && !SeveralSpellings(w)
    ensures WellMade(lib, v) && Encode(lib, v, d) == Success(w)
  {
    hide ValidateTypeDescriptor, KindFits, DecodeScalar, EncodeScalar, WellMade;
    assert w.NullValue? || KindFits(w, d.valueType);
    assert DecodeScalar(lib, w) == Success(v);
    if w.NullValue? {
      NullDecodes(lib);
    } else if w.GeometryWithCrs? || w.GeographyWithCrs? || w.LobValue? || w.TimeValue? || w.TimestampValue? {
      ObjectReencodes(lib, w, d, v);
    } else {
      PlainReencodes(lib, w, d, v);
    }
  }

  lemma NullDecodes(lib: Library)
    ensures DecodeScalar(lib, NullValue) == Success(Null) && WellMade(lib, Null)
  {
  }

  lemma ObjectReencodes(lib: Library, w: WireValue, d: TypeDescriptor, v: Value)
    requires w.GeometryWithCrs? || w.GeographyWithCrs? || w.LobValue? || w.TimeValue? || w.TimestampValue?
    requires KindFits(w, d.valueType) && DecodeScalar(lib, w) == Success(v)
    ensures WellMade(lib, v) && !v.Null? && d.valueType != ARRAY && EncodeScalar(lib, v, d.valueType) == Success(w)
  {
    hide IsLocalTime, IsLocalTimestamp;
  }

  lemma PlainReencodes(lib: Library, w: WireValue, d: TypeDescriptor, v: Value)
    requires !w.NoKind? && !w.NullValue? && !SeveralSpellings(w)
    requires !w.GeometryWithCrs? && !w.GeographyWithCrs? && !w.LobValue? && !w.TimeValue? && !w.TimestampValue?
    requires KindFits(w, d.valueType) && DecodeScalar(lib, w) == Success(v)
    ensures WellMade(lib, v) && !v.Null? && d.valueType != ARRAY && EncodeScalar(lib, v, d.valueType) == Success(w)
  {
  }

  // ---- inference ----

  /**
   * Declaring the type inferred from a value's undeclared encoding changes nothing: the
   * descriptor is well formed and the declared encoding is the same wire value.
   */
  lemma InferredTypeIsNeutral(lib: Library, v: Value, w: WireValue)
    requires WellMade(lib, v) && !v.Null? && EncodeUndeclared(lib, v) == Success(w)
    ensures Infer(w).Success? && Infer(w).value.Some?
    ensures WellFormed(Infer(w).value.value)
    ensures Encode(lib, v, Infer(w).value.value) == Success(w)
  {
    hide IntText, DateText, TimeText, TimestampText, IsLocalTime, IsLocalTimestamp, WellFormed;
    if v.Array? {
      assert w.ArrayValue? && w.elementType == v.elementType by { hide EncodeAll; }
      assert Infer(w) == Success(Some(ArrayOf(v.elementType)));
    } else {
      InferredScalarIsNeutral(lib, v, w);
    }
    ValidationIsWellFormedness(Infer(w).value.value);
  }

  /** The scalar type a value's undeclared encoding carries encodes it the same way. */
  ghost predicate Neutral(lib: Library, v: Value, w: WireValue)
    requires WellMade(lib, v)
  {
    && !w.NoKind? && !w.NullValue? && !w.ArrayValue?
    && ScalarTypeOf(w).Some?
    && ScalarTypeOf(w).value !in {UNKNOWN, ARRAY}
    && !ScalarTypeOf(w).value.Unrecognized?
    && EncodeScalar(lib, v, ScalarTypeOf(w).value) == Success(w)
  }

  lemma InferredScalarIsNeutral(lib: Library, v: Value, w: WireValue)
    requires WellMade(lib, v) && !v.Null? && !v.Array? && EncodeUndeclared(lib, v) == Success(w)
    ensures Neutral(lib, v, w)
  {
    hide WellMade, EncodeUndeclared, Neutral;
    if v.Bool? || v.Int? || v.Float? || v.Dec? {
      InferredNumberIsNeutral(lib, v, w);
    } else if v.Datetime? || v.DateOnly? || v.TimeOnly? || v.LocalTimestamp? || v.LocalTime? {
      InferredTimeIsNeutral(lib, v, w);
    } else {
      InferredObjectIsNeutral(lib, v, w);
    }
  }

  lemma InferredNumberIsNeutral(lib: Library, v: Value, w: WireValue)
    requires WellMade(lib, v) && EncodeUndeclared(lib, v) == Success(w)
    requires v.Bool? || v.Int? || v.Float? || v.Dec?
    ensures Neutral(lib, v, w)
  {
    hide IntText;
  }

  lemma InferredTimeIsNeutral(lib: Library, v: Value, w: WireValue)
    requires WellMade(lib, v) && EncodeUndeclared(lib, v) == Success(w)
    requires v.Datetime? || v.DateOnly? || v.TimeOnly? || v.LocalTimestamp? || v.LocalTime?
    ensures Neutral(lib, v, w)
  {
    hide DateText, TimeText, TimestampText, IsLocalTime, IsLocalTimestamp, ValidDate, ValidTime;
  }

  lemma InferredObjectIsNeutral(lib: Library, v: Value, w: WireValue)
    requires WellMade(lib, v) && !v.Null? && !v.Array? && EncodeUndeclared(lib, v) == Success(w)
    requires !v.Bool? && !v.Int? && !v.Float? && !v.Dec?
    requires !v.Datetime? && !v.DateOnly? && !v.TimeOnly? && !v.LocalTimestamp? && !v.LocalTime?
    ensures Neutral(lib, v, w)
  {
    hide CharOk, LobReferenceOk, EncodeInteger, DecimalText, JsonFromValue;
    if v.LobRef? {
      assert LobReferenceOk(v.reference) && v.reference.kind in {BLOB, CLOB} by { LobKinds(v.reference); }
    }
  }

  /** Under the type its undeclared encoding carries a value stays itself, or its local text. */
  ghost predicate Kept(lib: Library, v: Value, w: WireValue) {
    && ScalarTypeOf(w).Some?
    && LobsAgree(v, Plain(ScalarTypeOf(w).value))
    && CanonicalScalar(lib, v, ScalarTypeOf(w).value) ==
       match v
       case Datetime(date, time, _) => LocalTimestamp(TimestampText(date, time))
       case TimeOnly(time, _) => LocalTime(TimeText(time))
       case _ => v
  }

  lemma InferredKeepsScalar(lib: Library, v: Value, w: WireValue)
    requires WellMade(lib, v) && !v.Null? && !v.Array? && EncodeUndeclared(lib, v) == Success(w)
    ensures Kept(lib, v, w)
  {
    hide WellMade, EncodeUndeclared, Kept;
    if v.Bool? || v.Int? || v.Float? || v.Dec? {
      InferredKeepsNumber(lib, v, w);
    } else if v.Datetime? || v.DateOnly? || v.TimeOnly? || v.LocalTimestamp? || v.LocalTime? {
      InferredKeepsTime(lib, v, w);
    } else {
      InferredKeepsObject(lib, v, w);
    }
  }

  lemma InferredKeepsNumber(lib: Library, v: Value, w: WireValue)
    requires WellMade(lib, v) && EncodeUndeclared(lib, v) == Success(w)
    requires v.Bool? || v.Int? || v.Float? || v.Dec?
    ensures Kept(lib, v, w)
  {
    hide IntText;
  }

  lemma InferredKeepsTime(lib: Library, v: Value, w: WireValue)
    requires WellMade(lib, v) && EncodeUndeclared(lib, v) == Success(w)
    requires v.Datetime? || v.DateOnly? || v.TimeOnly? || v.LocalTimestamp? || v.LocalTime?
    ensures Kept(lib, v, w)
  {
    hide DateText, TimeText, TimestampText, IsLocalTime, IsLocalTimestamp, ValidDate, ValidTime;
  }

  lemma InferredKeepsObject(lib: Library, v: Value, w: WireValue)
    requires WellMade(lib, v) && !v.Null? && !v.Array? && EncodeUndeclared(lib, v) == Success(w)
    requires !v.Bool? && !v.Int? && !v.Float? && !v.Dec?
    requires !v.Datetime? && !v.DateOnly? && !v.TimeOnly? && !v.LocalTimestamp? && !v.LocalTime?
    ensures Kept(lib, v, w)
  {
    hide CharOk, LobReferenceOk, DecimalText, JsonFromValue;
    if v.LobRef? {
      assert LobReferenceOk(v.reference) && v.reference.kind in {BLOB, CLOB} by { LobKinds(v.reference); }
    }
  }

  lemma LobKinds(r: LobReference)
    requires LobReferenceOk(r)
    ensures r.kind in {BLOB, CLOB}
  {
  }

  /** Undeclared integers take the narrowest of three kinds and keep their number. */
  lemma NarrowestInteger(lib: Library, n: int)
    ensures var w := EncodeUndeclared(lib, Int(n));
            && w.Success?
            && DecodeKind(lib, w.value) == Success(Int(n))
            && (w.value.IntegerValue? <==> EncodeInteger(INTEGER, n).Success?)
            && (w.value.LongValue? <==> EncodeInteger(INTEGER, n).Failure? && EncodeInteger(LONG, n).Success?)
            && (w.value.BigintegerValue? <==> EncodeInteger(LONG, n).Failure?)
  {
    hide ParseInt, IntText;
    ParseIntOfText(n);
  }

  // ---- features a parameter needs ----

  datatype ValueFeature = ArrayFeature | SpatialFeature | LobWriteFeature

  /** All the wire values inside a wire value, itself included, each before its elements. */
  function Nested(w: WireValue): seq<WireValue>
    decreases w, 1
  {
    [w] + if w.ArrayValue? then NestedAll(w.elements) else []
  }

  function NestedAll(ws: seq<WireValue>): seq<WireValue>
    decreases ws, 0
  {
    if ws == [] then [] else Nested(ws[0]) + NestedAll(ws[1..])
  }

  function FeatureOf(w: WireValue): set<ValueFeature> {
    if w.ArrayValue? then {ArrayFeature}
    else if w.GeometryWithCrs? || w.GeographyWithCrs? then {SpatialFeature}
    else if w.LobValue? then {LobWriteFeature}
    else {}
  }

  function FeaturesIn(ws: seq<WireValue>): set<ValueFeature> {
    set w, f | w in ws && f in FeatureOf(w) :: f
  }

  lemma FeaturesInConcat(a: seq<WireValue>, b: seq<WireValue>)
    ensures FeaturesIn(a + b) == FeaturesIn(a) + FeaturesIn(b)
  {
    assert forall w :: w in a + b <==> w in a || w in b;
  }

  /** `_collect_value_features`: the accumulated set gains what the nested values need. */
  method CollectValueFeatures(w: WireValue, required: set<ValueFeature>) returns (r: set<ValueFeature>)
    ensures r == required + FeaturesIn(Nested(w))
    decreases w
  {
    r := required;
    assert Nested(w) == [w] + if w.ArrayValue? then NestedAll(w.elements) else [];
    FeaturesInConcat([w], if w.ArrayValue? then NestedAll(w.elements) else []);
    assert FeaturesIn([w]) == FeatureOf(w) by { assert w in [w]; }
    if w.ArrayValue? {
      r := r + {ArrayFeature};
      var i := 0;
      while i < |w.elements|
        invariant 0 <= i <= |w.elements|
        invariant r + FeaturesIn(NestedAll(w.elements[i..])) ==
                  required + {ArrayFeature} + FeaturesIn(NestedAll(w.elements))
      {
        FeaturesInConcat(Nested(w.elements[i]), NestedAll(w.elements[i..][1..]));
        assert w.elements[i..][1..] == w.elements[i + 1..];
        r := CollectValueFeatures(w.elements[i], r);
        i := i + 1;
      }
    } else if w.GeometryWithCrs? || w.GeographyWithCrs? {
      r := r + {SpatialFeature};
    } else if w.LobValue? {
      r := r + {LobWriteFeature};
    }
  }
}
