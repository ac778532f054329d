/** Type descriptors: well-formedness, array depth, and the capability checks. */
module Descriptors {
  import opened Wrappers
  import opened Errors

  datatype ValueType =
    | UNKNOWN | STRING | VARBINARY | CHAR | BOOLEAN | BYTE | SHORT | INTEGER | LONG
    | BIGINTEGER | FLOAT | DOUBLE | BIGDECIMAL | DATE | TIME | TIMESTAMP | BLOB | CLOB
    | GEOMETRY | GEOGRAPHY | JSON | XML | ARRAY
    | Unrecognized(number: int)

  datatype TypeDescriptor = TypeDescriptor(
    valueType: ValueType,
    element: Option<TypeDescriptor>,
    precision: Option<int>,
    scale: Option<int>)

  /** A descriptor of the given type with no facets, as `type_descriptor` builds it. */
  function Plain(valueType: ValueType): TypeDescriptor {
    TypeDescriptor(valueType, None, None, None)
  }

  function ArrayOf(element: TypeDescriptor): TypeDescriptor {
    TypeDescriptor(ARRAY, Some(element), None, None)
  }

  /** Well-formedness of one nesting level, whatever its element is. */
  predicate LevelOk(d: TypeDescriptor) {
    && !d.valueType.Unrecognized?
    && d.valueType != UNKNOWN
    && (d.valueType == ARRAY <==> d.element.Some?)
    && (d.precision.Some? ==> d.precision.value > 0 && d.valueType in {BIGINTEGER, BIGDECIMAL})
    && (d.scale.Some? ==>
          && d.valueType == BIGDECIMAL
          && d.precision.Some?
          && d.scale.value <= d.precision.value)
  }

  /** The descriptor's levels from the outside in, following the element links. */
  function Levels(d: TypeDescriptor): (levels: seq<TypeDescriptor>)
    ensures |levels| > 0 && levels[0] == d
  {
    [d] + if d.element.Some? then Levels(d.element.value) else []
  }

  ghost predicate WellFormed(d: TypeDescriptor) {
    forall level <- Levels(d) :: LevelOk(level)
  }

  /** Array depth: the number of ARRAY levels before the first other level. */
  function Depth(d: TypeDescriptor): nat {
    if d.valueType == ARRAY && d.element.Some? then 1 + Depth(d.element.value) else 0
  }

  /** The recursive validator; it looks inside an array before the facets. */
  function ValidateTypeDescriptor(d: TypeDescriptor): (r: Result<(), Error>)
    ensures r.Failure? ==> r.error == CodecError
  {
    if d.valueType.Unrecognized? || d.valueType == UNKNOWN then
      Failure(CodecError)
    else if (d.valueType == ARRAY) != d.element.Some? then
      Failure(CodecError)
    else if d.valueType == ARRAY && ValidateTypeDescriptor(d.element.value).Failure? then
      Failure(CodecError)
    else if d.precision.Some? && d.precision.value <= 0 then
      Failure(CodecError)
    else if d.precision.Some? && d.valueType !in {BIGINTEGER, BIGDECIMAL} then
      Failure(CodecError)
    else if d.scale.Some? && (d.valueType != BIGDECIMAL || d.precision.None?) then
      Failure(CodecError)
    else if d.scale.Some? && d.scale.value > d.precision.value then
      Failure(CodecError)
    else
      Success(())
  }

  /** Validates the whole descriptor, then counts its array levels. */
  method DescriptorDimensions(d: TypeDescriptor) returns (r: Result<nat, Error>)
    ensures r.Success? <==> WellFormed(d)
    ensures r.Success? ==> r.value == Depth(d) == |Levels(d)| - 1
    ensures r.Failure? ==> r.error == CodecError
  {
    ValidationIsWellFormedness(d);
    if ValidateTypeDescriptor(d).Failure? {
      return Failure(CodecError);
    }
    DepthCountsLevels(d);
    var dimensions := 0;
    var current := d;
    while current.valueType == ARRAY
      invariant ValidateTypeDescriptor(current).Success?
      invariant dimensions + Depth(current) == Depth(d)
      decreases current
    {
      dimensions := dimensions + 1;
      current := current.element.value;
    }
    r := Success(dimensions);
  }

  /** What `DescriptorDimensions` returns, for use in functions. */
  function Dimensions(d: TypeDescriptor): Result<nat, Error> {
    if ValidateTypeDescriptor(d).Failure? then Failure(CodecError) else Success(Depth(d))
  }

  /** Output side: every level is checked, and each array level re-counts the depth. */
  function ValidateOutputDescriptor(
    d: TypeDescriptor, supported: set<ValueType>, arraysAccepted: bool, maxDimensions: nat): Result<(), Error>
    decreases d
  {
    if d.valueType !in supported then
      Failure(ProtocolError)
    else
      var dimensions :- Dimensions(d);
      if dimensions == 0 then
        Success(())
      else if !arraysAccepted then
        Failure(ProtocolError)
      else if maxDimensions == 0 || dimensions > maxDimensions then
        Failure(ProtocolError)
      else
        ValidateOutputDescriptor(d.element.value, supported, arraysAccepted, maxDimensions)
  }

  /** Input side: the same recursion against the input types, with no array feature. */
  function ValidateInputDescriptor(
    d: TypeDescriptor, supported: set<ValueType>, maxDimensions: nat): (r: Result<(), Error>)
    ensures r.Failure? ==> r.error in {CodecError, CapabilityError}
    decreases d
  {
    if d.valueType !in supported then
      Failure(CapabilityError)
    else
      var dimensions :- Dimensions(d);
      if dimensions == 0 then
        Success(())
      else if maxDimensions == 0 || dimensions > maxDimensions then
        Failure(CapabilityError)
      else
        ValidateInputDescriptor(d.element.value, supported, maxDimensions)
  }

  lemma {:induction false} ValidationIsWellFormedness(d: TypeDescriptor)
    ensures ValidateTypeDescriptor(d).Success? <==> WellFormed(d)
  {
    if d.element.Some? {
      ValidationIsWellFormedness(d.element.value);
      assert Levels(d) == [d] + Levels(d.element.value);
      assert forall level <- Levels(d.element.value) :: level in Levels(d);
    }
    assert d in Levels(d);
  }

  lemma {:induction false} DepthCountsLevels(d: TypeDescriptor)
    requires WellFormed(d)
    ensures Depth(d) == |Levels(d)| - 1
    ensures forall i :: 0 <= i < |Levels(d)| ==> (Levels(d)[i].valueType == ARRAY <==> i < Depth(d))
  {
    assert d in Levels(d) && LevelOk(d);
    if d.element.Some? {
      assert Levels(d) == [d] + Levels(d.element.value);
      WellFormedElement(d);
      DepthCountsLevels(d.element.value);
    }
  }

  lemma WellFormedElement(d: TypeDescriptor)
    requires WellFormed(d) && d.element.Some?
    ensures WellFormed(d.element.value)
  {
    assert Levels(d) == [d] + Levels(d.element.value);
    forall level <- Levels(d.element.value) ensures LevelOk(level) {
      assert level in Levels(d);
    }
  }

  /** Every nesting level's type is in the given set. */
  ghost predicate LevelsSupported(d: TypeDescriptor, supported: set<ValueType>) {
    forall level <- Levels(d) :: level.valueType in supported
  }

  /** The repeated recursion accepts exactly what one look at the levels accepts. */
  lemma {:induction false} OutputDescriptorAcceptance(
    d: TypeDescriptor, supported: set<ValueType>, arraysAccepted: bool, maxDimensions: nat)
    ensures ValidateOutputDescriptor(d, supported, arraysAccepted, maxDimensions).Success? <==>
              && WellFormed(d)
              && LevelsSupported(d, supported)
              && Depth(d) <= maxDimensions
              && (Depth(d) > 0 ==> arraysAccepted)
  {
    ValidationIsWellFormedness(d);
    assert d in Levels(d);
    if WellFormed(d) && Depth(d) > 0 {
      WellFormedElement(d);
      OutputDescriptorAcceptance(d.element.value, supported, arraysAccepted, maxDimensions);
      LevelsSupportedElement(d, supported);
    } else if WellFormed(d) {
      DepthCountsLevels(d);
      assert Levels(d) == [d];
    }
  }

  lemma {:induction false} InputDescriptorAcceptance(
    d: TypeDescriptor, supported: set<ValueType>, maxDimensions: nat)
    ensures ValidateInputDescriptor(d, supported, maxDimensions).Success? <==>
              WellFormed(d) && LevelsSupported(d, supported) && Depth(d) <= maxDimensions
  {
    ValidationIsWellFormedness(d);
    assert d in Levels(d);
    if WellFormed(d) && Depth(d) > 0 {
      WellFormedElement(d);
      InputDescriptorAcceptance(d.element.value, supported, maxDimensions);
      LevelsSupportedElement(d, supported);
    } else if WellFormed(d) {
      DepthCountsLevels(d);
      assert Levels(d) == [d];
    }
  }

  lemma LevelsSupportedElement(d: TypeDescriptor, supported: set<ValueType>)
    requires d.element.Some?
    ensures LevelsSupported(d, supported) <==>
              d.valueType in supported && LevelsSupported(d.element.value, supported)
  {
    assert Levels(d) == [d] + Levels(d.element.value);
    assert forall level <- Levels(d.element.value) :: level in Levels(d);
    assert d in Levels(d);
  }
}
