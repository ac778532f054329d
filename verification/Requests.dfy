/** What is checked before an Execute request goes out, and what is negotiated for its reply. */
module Requests {
  import opened Wrappers
  import opened Errors
  import opened Descriptors
  import opened LocalTimes
  import opened Codec
  import opened Protocol
  import CodecTheorems

  /** What the server advertised at login, with the client's own message limits. */
  datatype ServerInfo = ServerInfo(
    lib: Library,
    features: set<Feature>,
    inputTypes: set<ValueType>,
    outputTypes: set<ValueType>,
    maxDimensions: nat,
    maxRequestBytes: nat,
    maxSendBytes: nat,
    maxResponseBytes: nat,
    maxReceiveBytes: nat,
    maxBatchBytes: nat,
    maxRowsPerBatch: nat,
    maxWarnings: int,
    maxAffected: int)

  const ACCEPTABLE_OUTPUT_FEATURES: set<Feature> :=
    {ARRAY_VALUES, SPATIAL_VALUES, LOB_READ, MULTIPLE_RESULTS, GENERATED_KEYS, PARTIAL_RESULTS}

  const DBAPI_OUTPUT_FEATURES: set<Feature> := {ARRAY_VALUES, SPATIAL_VALUES, LOB_READ, PARTIAL_RESULTS}

  /** The `Parameter` message; one built by the caller may lack its value. */
  datatype Parameter = Parameter(value: Option<WireValue>, declared: Option<TypeDescriptor>)

  /** What a caller passes for a parameter: a value, a `BoundParameter`, or a finished message. */
  datatype Argument =
    | Bare(value: Value)
    | Bound(value: Value, declared: Option<TypeDescriptor>)
    | Prepared(parameter: Parameter)

  predicate SoundArgument(lib: Library, a: Argument) { !a.Prepared? ==> WellMade(lib, a.value) }

  /** The descriptor a caller fixed for a value, if any. */
  function DeclaredBy(a: Argument): Option<TypeDescriptor> {
    if a.Bound? then a.declared else None
  }

  /** `encode_parameter`: the declared type rules the encoding, or the inferred one is sent along. */
  function EncodeParameter(lib: Library, v: Value, declared: Option<TypeDescriptor>): (r: Result<Parameter, Error>)
    requires WellMade(lib, v)
    ensures r.Failure? ==> r.error in {CodecError, OverflowError}
  {
    if declared.Some? then
      var wire :- Encode(lib, v, declared.value);
      Success(Parameter(Some(wire), declared))
    else
      var wire :- EncodeUndeclared(lib, v);
      var inferred :- Infer(wire);
      Success(Parameter(Some(wire), inferred))
  }

  /** A finished message is copied as it is. */
  function EncodeArgument(lib: Library, a: Argument): (r: Result<Parameter, Error>)
    requires SoundArgument(lib, a)
    ensures r.Failure? ==> r.error in {CodecError, OverflowError}
  {
    if a.Prepared? then Success(a.parameter) else EncodeParameter(lib, a.value, DeclaredBy(a))
  }

  function EncodeArguments(lib: Library, arguments: seq<Argument>): (r: Result<seq<Parameter>, Error>)
    requires forall a | a in arguments :: SoundArgument(lib, a)
    ensures r.Success? ==> |r.value| == |arguments|
    ensures r.Failure? ==> r.error in {CodecError, OverflowError}
  {
    if arguments == [] then Success([])
    else
      var first :- EncodeArgument(lib, arguments[0]);
      var rest :- EncodeArguments(lib, arguments[1..]);
      Success([first] + rest)
  }

  /** The features a parameter needs: a typed one, and those of the values nested in it. */
  function RequiredFeatures(p: Parameter): set<Feature> {
    (if p.declared.Some? then {TYPED_PARAMETERS} else {})
    + (set f | p.value.Some? && f in CodecTheorems.FeaturesIn(CodecTheorems.Nested(p.value.value)) ::
         match f
         case ArrayFeature => ARRAY_VALUES
         case SpatialFeature => SPATIAL_VALUES
         case LobWriteFeature => LOB_WRITE)
  }

  /** The type a parameter is checked against: the declared one, or the one its value has. */
  function TypeSent(p: Parameter): (r: Result<Option<TypeDescriptor>, Error>)
    ensures r.Failure? ==> r.error == CodecError
  {
    if p.value.None? then Failure(CodecError)
    else if p.declared.Some? then Success(p.declared)
    else Infer(p.value.value)
  }

  function InputParameterError(info: ServerInfo, p: Parameter): (r: Option<Error>)
    ensures r.Some? ==> r.value in {CodecError, CapabilityError}
  {
    match TypeSent(p)
    case Failure(error) => Some(error)
    case Success(None) => None
    case Success(Some(d)) =>
      match ValidateInputDescriptor(d, info.inputTypes, info.maxDimensions)
      case Success(_) => None
      case Failure(error) => Some(error)
  }

  function FirstInputError(info: ServerInfo, ps: seq<Parameter>): (r: Option<Error>)
    ensures r.Some? ==> r.value in {CodecError, CapabilityError}
  {
    if ps == [] then None
    else if InputParameterError(info, ps[0]).Some? then InputParameterError(info, ps[0])
    else FirstInputError(info, ps[1..])
  }

  predicate DeclaresSoundly(p: Parameter) {
    p.declared.Some? ==> ValidateTypeDescriptor(p.declared.value).Success?
  }

  /**
   * The checks of `KublingSession.execute`, in order; the serialized size of the request
   * is given. `None` means that the call is made.
   */
  function Refusal(
    info: ServerInfo, sql: string, arguments: seq<Argument>, transactionId: string, batchSize: int,
    accepted: set<Feature>, allowPartial: bool, returnKeys: bool, requestBytes: nat): (r: Option<Error>)
    requires forall a | a in arguments :: SoundArgument(info.lib, a)
    ensures r.Some? ==> r.value in {CodecError, OverflowError, CapabilityError, ConfigurationError}
  {
    if sql == "" then Some(ConfigurationError)
    else if !(accepted <= ACCEPTABLE_OUTPUT_FEATURES) then Some(CapabilityError)
    else if !(accepted <= info.features) then Some(CapabilityError)
    else if allowPartial && PARTIAL_RESULTS !in accepted then Some(CapabilityError)
    else if returnKeys && GENERATED_KEYS !in accepted then Some(CapabilityError)
    else
      match EncodeArguments(info.lib, arguments)
      case Failure(error) => Some(error)
      case Success(encoded) => ParametersRefusal(info, encoded, transactionId, batchSize, requestBytes)
  }

  function ParametersRefusal(
    info: ServerInfo, encoded: seq<Parameter>, transactionId: string, batchSize: int, requestBytes: nat):
    (r: Option<Error>)
    ensures r.Some? ==> r.value in {CodecError, CapabilityError, ConfigurationError}
  {
    var required := (set p, f | p in encoded && f in RequiredFeatures(p) :: f)
                    + if transactionId != "" then {TRANSACTION_IDS} else {};
    if !(forall p | p in encoded :: DeclaresSoundly(p)) then Some(CodecError)
    else if !(required <= info.features) then Some(CapabilityError)
    else if FirstInputError(info, encoded).Some? then FirstInputError(info, encoded)
    else if batchSize < 0 then Some(ConfigurationError)
    else if batchSize > info.maxRowsPerBatch then Some(CapabilityError)
    else if requestBytes > info.maxRequestBytes || requestBytes > info.maxSendBytes then Some(CapabilityError)
    else None
  }

  /** The features a DB-API connection accepts. */
  function AcceptedOutputFeatures(info: ServerInfo): (accepted: set<Feature>)
    ensures accepted <= ACCEPTABLE_OUTPUT_FEATURES && accepted <= info.features
    ensures MULTIPLE_RESULTS !in accepted && GENERATED_KEYS !in accepted
  {
    DBAPI_OUTPUT_FEATURES * info.features
  }

  /** The configuration under which the reply is read. */
  function StreamConfig(info: ServerInfo, accepted: set<Feature>, allowPartial: bool): Config {
    Config(
      info.lib, accepted, info.outputTypes, info.maxDimensions,
      if info.maxResponseBytes < info.maxReceiveBytes then info.maxResponseBytes else info.maxReceiveBytes,
      info.maxBatchBytes, info.maxRowsPerBatch, allowPartial, info.maxWarnings, info.maxAffected)
  }

  /** A parameter the server can take: its features are advertised and its type is an input type. */
  ghost predicate ParameterTaken(info: ServerInfo, p: Parameter) {
    && RequiredFeatures(p) <= info.features
    && TypeSent(p).Success?
    && (TypeSent(p).value.Some? ==>
          var d := TypeSent(p).value.value;
          WellFormed(d) && LevelsSupported(d, info.inputTypes) && Depth(d) <= info.maxDimensions)
  }

  /**
   * A request goes out exactly when it has SQL, accepts only acceptable and advertised
   * features, asks for partial results and generated keys openly, its arguments, bound to
   * a type or not, encode to parameters the server takes, and its transaction, batch size
   * and length are within what was agreed.
   */
  lemma SentExactly(
    info: ServerInfo, sql: string, arguments: seq<Argument>, transactionId: string, batchSize: int,
    accepted: set<Feature>, allowPartial: bool, returnKeys: bool, requestBytes: nat)
    requires forall a | a in arguments :: SoundArgument(info.lib, a)
    ensures Refusal(info, sql, arguments, transactionId, batchSize, accepted, allowPartial, returnKeys,
                    requestBytes).None? <==>
              && sql != ""
              && accepted <= {ARRAY_VALUES, SPATIAL_VALUES, LOB_READ, MULTIPLE_RESULTS, GENERATED_KEYS, PARTIAL_RESULTS}
              && accepted <= info.features
              && (allowPartial ==> PARTIAL_RESULTS in accepted)
              && (returnKeys ==> GENERATED_KEYS in accepted)
              && EncodeArguments(info.lib, arguments).Success?
              && (forall p | p in EncodeArguments(info.lib, arguments).value :: ParameterTaken(info, p))
              && (transactionId != "" ==> TRANSACTION_IDS in info.features)
              && 0 <= batchSize <= info.maxRowsPerBatch
              && requestBytes <= info.maxRequestBytes && requestBytes <= info.maxSendBytes
  {
    hide EncodeArguments, ParameterTaken, ParametersRefusal;
    if EncodeArguments(info.lib, arguments).Success? {
      ParametersPassExactly(info, EncodeArguments(info.lib, arguments).value, transactionId, batchSize, requestBytes);
    }
  }

  lemma ParametersPassExactly(
    info: ServerInfo, encoded: seq<Parameter>, transactionId: string, batchSize: int, requestBytes: nat)
    ensures ParametersRefusal(info, encoded, transactionId, batchSize, requestBytes).None? <==>
              && (forall p | p in encoded :: ParameterTaken(info, p))
              && (transactionId != "" ==> TRANSACTION_IDS in info.features)
              && 0 <= batchSize <= info.maxRowsPerBatch
              && requestBytes <= info.maxRequestBytes && requestBytes <= info.maxSendBytes
  {
    hide ParameterTaken, FirstInputError, RequiredFeatures, DeclaresSoundly;
    ParametersTakenExactly(info, encoded);
    var required := set p, f | p in encoded && f in RequiredFeatures(p) :: f;
    assert required <= info.features <==> forall p | p in encoded :: RequiredFeatures(p) <= info.features by {
      forall p, f | p in encoded && f in RequiredFeatures(p) ensures f in required {}
    }
  }

  /** All parameters are taken exactly when their features are there and no type check fails. */
  lemma {:induction false} ParametersTakenExactly(info: ServerInfo, ps: seq<Parameter>)
    ensures (forall p | p in ps :: ParameterTaken(info, p)) <==>
            && (forall p | p in ps :: DeclaresSoundly(p))
            && (forall p | p in ps :: RequiredFeatures(p) <= info.features)
            && FirstInputError(info, ps).None?
  {
    hide ParameterTaken, InputParameterError, RequiredFeatures, DeclaresSoundly;
    if ps != [] {
      var first, rest := ps[0], ps[1..];
      ParameterTakenExactly(info, first);
      ParametersTakenExactly(info, rest);
      assert FirstInputError(info, ps).None? <==>
             InputParameterError(info, first).None? && FirstInputError(info, rest).None?;
      assert ps == [first] + rest;
    }
  }

  lemma ParameterTakenExactly(info: ServerInfo, p: Parameter)
    ensures ParameterTaken(info, p) <==>
            DeclaresSoundly(p) && RequiredFeatures(p) <= info.features && InputParameterError(info, p).None?
  {
    hide LevelsSupported, WellFormed, ValidateInputDescriptor, ValidateTypeDescriptor, Depth, RequiredFeatures, Infer;
    if TypeSent(p).Success? && TypeSent(p).value.Some? {
      ValidationIsWellFormedness(TypeSent(p).value.value);
      InputDescriptorAcceptance(TypeSent(p).value.value, info.inputTypes, info.maxDimensions);
    }
  }

  /** Some parameter needs a feature the server does not advertise. */
  ghost predicate FeatureMissing(info: ServerInfo, ps: seq<Parameter>) {
    exists p | p in ps :: !(RequiredFeatures(p) <= info.features)
  }

  ghost predicate TypeMalformed(ps: seq<Parameter>) {
    exists p | p in ps :: p.declared.Some? && !WellFormed(p.declared.value)
  }

  /** The first parameter the server does not take, all features being there, and why. */
  ghost predicate FirstNotTaken(info: ServerInfo, ps: seq<Parameter>, i: nat, error: Error) {
    && i < |ps| && !ParameterTaken(info, ps[i])
    && (forall k :: 0 <= k < i ==> ParameterTaken(info, ps[k]))
    && error == if TypeSent(ps[i]).Failure? then CodecError else CapabilityError
  }

  /**
   * Why a request was not sent: the first of the things agreed on that it does not keep to
   * decides, and among its arguments the first.
   */
  lemma WhyNotSent(
    info: ServerInfo, sql: string, arguments: seq<Argument>, transactionId: string, batchSize: int,
    accepted: set<Feature>, allowPartial: bool, returnKeys: bool, requestBytes: nat, error: Error)
    requires forall a | a in arguments :: SoundArgument(info.lib, a)
    requires Refusal(info, sql, arguments, transactionId, batchSize, accepted, allowPartial, returnKeys, requestBytes)
             == Some(error)
    ensures var encoded := EncodeArguments(info.lib, arguments);
            if sql == "" then error == ConfigurationError
            else if !(&& accepted <= {ARRAY_VALUES, SPATIAL_VALUES, LOB_READ, MULTIPLE_RESULTS, GENERATED_KEYS,
                                      PARTIAL_RESULTS}
                      && accepted <= info.features
                      && (allowPartial ==> PARTIAL_RESULTS in accepted)
                      && (returnKeys ==> GENERATED_KEYS in accepted))
            then error == CapabilityError
            else if encoded.Failure? then error == encoded.error
            else if TypeMalformed(encoded.value) then error == CodecError
            else if FeatureMissing(info, encoded.value) || (transactionId != "" && TRANSACTION_IDS !in info.features)
            then error == CapabilityError
            else if exists p | p in encoded.value :: !ParameterTaken(info, p)
            then exists i :: FirstNotTaken(info, encoded.value, i, error)
            else error == if batchSize < 0 then ConfigurationError else CapabilityError
  {
    hide EncodeArguments, ParametersRefusal, TypeMalformed, FeatureMissing, FirstNotTaken, ParameterTaken;
    if EncodeArguments(info.lib, arguments).Success? {
      WhyParametersRefused(info, EncodeArguments(info.lib, arguments).value, transactionId, batchSize, requestBytes);
    }
  }

  lemma WhyParametersRefused(
    info: ServerInfo, ps: seq<Parameter>, transactionId: string, batchSize: int, requestBytes: nat)
    ensures var refusal := ParametersRefusal(info, ps, transactionId, batchSize, requestBytes);
            refusal.Some? ==>
              if TypeMalformed(ps) then refusal.value == CodecError
              else if FeatureMissing(info, ps) || (transactionId != "" && TRANSACTION_IDS !in info.features)
              then refusal.value == CapabilityError
              else if exists p | p in ps :: !ParameterTaken(info, p)
              then exists i :: FirstNotTaken(info, ps, i, refusal.value)
              else refusal.value == if batchSize < 0 then ConfigurationError else CapabilityError
  {
    hide ParameterTaken, RequiredFeatures, FirstNotTaken, WellFormed, ValidateTypeDescriptor;
    forall p | p in ps && p.declared.Some?
      ensures DeclaresSoundly(p) <==> WellFormed(p.declared.value)
    {
      ValidationIsWellFormedness(p.declared.value);
    }
    var required := set p, f | p in ps && f in RequiredFeatures(p) :: f;
    assert required <= info.features <==> !FeatureMissing(info, ps) by {
      forall p, f | p in ps && f in RequiredFeatures(p) ensures f in required {}
    }
    if !TypeMalformed(ps) && !FeatureMissing(info, ps) {
      WhyParameterRefused(info, ps);
    }
  }

  /** Where no feature is missing, the first parameter not taken decides the error. */
  lemma {:induction false} WhyParameterRefused(info: ServerInfo, ps: seq<Parameter>)
    requires !TypeMalformed(ps) && !FeatureMissing(info, ps)
    ensures if exists p | p in ps :: !ParameterTaken(info, p) then
              FirstInputError(info, ps).Some? &&
              exists i :: FirstNotTaken(info, ps, i, FirstInputError(info, ps).value)
            else FirstInputError(info, ps).None?
  {
    hide ParameterTaken, InputParameterError, RequiredFeatures, WellFormed, TypeSent;
    if ps != [] {
      var first, rest := ps[0], ps[1..];
      assert first in ps;
      assert forall p :: p in ps <==> p == first || p in rest;
      OneParameterRefused(info, first);
      WhyParameterRefused(info, rest);
      if InputParameterError(info, first).Some? {
        assert FirstNotTaken(info, ps, 0, FirstInputError(info, ps).value);
      } else if exists p | p in rest :: !ParameterTaken(info, p) {
        var i: nat :| FirstNotTaken(info, rest, i, FirstInputError(info, rest).value);
        assert rest[i] == ps[i + 1];
        assert forall k :: 1 <= k < i + 1 ==> ps[k] == rest[k - 1];
        assert FirstNotTaken(info, ps, i + 1, FirstInputError(info, ps).value);
      }
    }
  }

  lemma OneParameterRefused(info: ServerInfo, p: Parameter)
    requires RequiredFeatures(p) <= info.features && (p.declared.Some? ==> WellFormed(p.declared.value))
    ensures if ParameterTaken(info, p) then InputParameterError(info, p).None?
            else InputParameterError(info, p) == Some(if TypeSent(p).Failure? then CodecError else CapabilityError)
  {
    hide LevelsSupported, WellFormed, ValidateTypeDescriptor, Depth, RequiredFeatures, Infer, ValidateInputDescriptor;
    if TypeSent(p).Success? && TypeSent(p).value.Some? {
      var d := TypeSent(p).value.value;
      TypeSentIsWellFormed(p);
      ValidationIsWellFormedness(d);
      InputDescriptorAcceptance(d, info.inputTypes, info.maxDimensions);
      RefusedForTheServer(d, info.inputTypes, info.maxDimensions);
    }
  }

  lemma TypeSentIsWellFormed(p: Parameter)
    requires TypeSent(p).Success? && TypeSent(p).value.Some? && (p.declared.Some? ==> WellFormed(p.declared.value))
    ensures WellFormed(TypeSent(p).value.value)
  {
    hide WellFormed, ValidateTypeDescriptor;
    ValidationIsWellFormedness(TypeSent(p).value.value);
  }

  /** A well-formed descriptor can only be refused for what the server does not support. */
  lemma {:induction false} RefusedForTheServer(d: TypeDescriptor, supported: set<ValueType>, maxDimensions: nat)
    requires WellFormed(d)
    ensures var r := ValidateInputDescriptor(d, supported, maxDimensions); r.Failure? ==> r.error == CapabilityError
    decreases d
  {
    hide WellFormed;
    ValidationIsWellFormedness(d);
    if d.valueType == ARRAY && d.element.Some? {
      WellFormedElement(d);
      RefusedForTheServer(d.element.value, supported, maxDimensions);
    }
  }

  /**
   * A value that is sent carries the type it was bound to, or the inferred one; only an
   * unbound null has none. Decoded under that type it is the value again, in canonical
   * form, exactly when its LOB references agree with the type.
   */
  lemma ArgumentArrives(lib: Library, a: Argument, p: Parameter)
    requires SoundArgument(lib, a) && !a.Prepared? && EncodeArgument(lib, a) == Success(p)
    ensures p.value.Some?
    ensures DeclaredBy(a).Some? ==> p.declared == DeclaredBy(a)
    ensures p.declared.None? <==> a.value.Null? && DeclaredBy(a).None?
    ensures p.declared.Some? ==>
              Decode(lib, p.value.value, p.declared.value) ==
              if CodecTheorems.LobsAgree(a.value, p.declared.value)
              then Success(CodecTheorems.Canonical(lib, a.value, p.declared.value))
              else Failure(CodecError)
  {
    hide Encode, EncodeUndeclared, Infer, WellMade, WellFormed, Decode;
    if DeclaredBy(a).None? && !a.value.Null? {
      CodecTheorems.InferredTypeIsNeutral(lib, a.value, p.value.value);
    } else if DeclaredBy(a).None? {
      NullHasNoType(lib);
    }
    if p.declared.Some? {
      CodecTheorems.RoundTrip(lib, a.value, p.declared.value, p.value.value);
    }
  }

  lemma NullHasNoType(lib: Library)
    ensures EncodeUndeclared(lib, Null) == Success(NullValue) && Infer(NullValue) == Success(None)
  {
  }

  /**
   * An unbound value is sent under a type that brings it back as itself; only naive
   * datetimes and times come back as the local wrappers of their text.
   */
  lemma UnboundComesBack(lib: Library, v: Value, p: Parameter)
    requires WellMade(lib, v) && !v.Null? && !v.Array? && EncodeArgument(lib, Bare(v)) == Success(p)
    ensures p.value.Some? && p.declared.Some?
    ensures Decode(lib, p.value.value, p.declared.value) ==
            Success(match v
                    case Datetime(date, time, _) => LocalTimestamp(TimestampText(date, time))
                    case TimeOnly(time, _) => LocalTime(TimeText(time))
                    case _ => v)
  {
    hide Encode, WellFormed, Decode, DateText, TimeText, TimestampText, IsLocalTime, IsLocalTimestamp;
    ArgumentArrives(lib, Bare(v), p);
    InferredKeepsValue(lib, v, p);
  }

  lemma InferredKeepsValue(lib: Library, v: Value, p: Parameter)
    requires WellMade(lib, v) && !v.Null? && !v.Array? && EncodeArgument(lib, Bare(v)) == Success(p)
    ensures p.declared.Some? && p.value.Some?
    ensures CodecTheorems.LobsAgree(v, p.declared.value)
    ensures CodecTheorems.Canonical(lib, v, p.declared.value) ==
            match v
            case Datetime(date, time, _) => LocalTimestamp(TimestampText(date, time))
            case TimeOnly(time, _) => LocalTime(TimeText(time))
            case _ => v
  {
    hide EncodeUndeclared, WellMade, ValidateTypeDescriptor, CodecTheorems.CanonicalScalar, TimeText, TimestampText;
    CodecTheorems.InferredScalarIsNeutral(lib, v, p.value.value);
    CodecTheorems.InferredKeepsScalar(lib, v, p.value.value);
  }

  /** Arguments are encoded one by one, in order. */
  lemma {:induction false} ArgumentsAreEncodedInOrder(lib: Library, arguments: seq<Argument>, i: nat)
    requires forall a | a in arguments :: SoundArgument(lib, a)
    requires EncodeArguments(lib, arguments).Success? && i < |arguments|
    ensures |EncodeArguments(lib, arguments).value| == |arguments|
    ensures arguments[i] in arguments
    ensures EncodeArgument(lib, arguments[i]) == Success(EncodeArguments(lib, arguments).value[i])
  {
    hide EncodeArgument, SoundArgument;
    if i > 0 {
      ArgumentsAreEncodedInOrder(lib, arguments[1..], i - 1);
    }
  }

  /** The first argument that fails decides the error. */
  lemma {:induction false} FirstBadArgumentDecides(lib: Library, arguments: seq<Argument>) returns (i: nat)
    requires forall a | a in arguments :: SoundArgument(lib, a)
    requires EncodeArguments(lib, arguments).Failure?
    ensures i < |arguments| && arguments[i] in arguments
    ensures EncodeArgument(lib, arguments[i]) == Failure(EncodeArguments(lib, arguments).error)
    ensures forall a | a in arguments[..i] :: a in arguments && EncodeArgument(lib, a).Success?
  {
    hide EncodeArgument, SoundArgument;
    if EncodeArgument(lib, arguments[0]).Failure? {
      i := 0;
    } else {
      i := FirstBadArgumentDecides(lib, arguments[1..]);
      assert arguments[..i + 1] == [arguments[0]] + arguments[1..][..i];
      i := i + 1;
    }
  }

  /** The features a parameter needs, one by one. */
  lemma RequiredFeaturesMean(p: Parameter)
    ensures TYPED_PARAMETERS in RequiredFeatures(p) <==> p.declared.Some?
    ensures var inside := if p.value.Some? then CodecTheorems.Nested(p.value.value) else [];
            && (ARRAY_VALUES in RequiredFeatures(p) <==> exists n | n in inside :: n.ArrayValue?)
            && (SPATIAL_VALUES in RequiredFeatures(p) <==>
                  exists n | n in inside :: n.GeometryWithCrs? || n.GeographyWithCrs?)
            && (LOB_WRITE in RequiredFeatures(p) <==> exists n | n in inside :: n.LobValue?)
    ensures RequiredFeatures(p) <= {TYPED_PARAMETERS, ARRAY_VALUES, SPATIAL_VALUES, LOB_WRITE}
  {
    if p.value.Some? {
      var inside := CodecTheorems.Nested(p.value.value);
      assert forall f :: f in CodecTheorems.FeaturesIn(inside) <==>
                           exists n | n in inside :: f in CodecTheorems.FeatureOf(n);
      assert CodecTheorems.ArrayFeature in CodecTheorems.FeaturesIn(inside) <==> ARRAY_VALUES in RequiredFeatures(p);
      assert CodecTheorems.SpatialFeature in CodecTheorems.FeaturesIn(inside) <==>
             SPATIAL_VALUES in RequiredFeatures(p);
      assert CodecTheorems.LobWriteFeature in CodecTheorems.FeaturesIn(inside) <==> LOB_WRITE in RequiredFeatures(p);
    }
  }

  /** What a DB-API connection accepts, and the limits and types its replies are held to. */
  lemma NegotiatedTerms(info: ServerInfo, allowPartial: bool, r: Response)
    ensures var cfg := StreamConfig(info, AcceptedOutputFeatures(info), allowPartial);
            && (forall f :: f in cfg.accepted <==>
                              f in info.features && f in {ARRAY_VALUES, SPATIAL_VALUES, LOB_READ, PARTIAL_RESULTS})
            && cfg.lib == info.lib && cfg.outputTypes == info.outputTypes && cfg.maxDimensions == info.maxDimensions
            && cfg.allowPartial == allowPartial
            && cfg.maxWarnings == info.maxWarnings && cfg.maxAffected == info.maxAffected
            && (InLimits(cfg, r) <==>
                  && r.bytes <= info.maxResponseBytes && r.bytes <= info.maxReceiveBytes
                  && (r.event.RowsEvent? ==>
                        |r.event.rows| <= info.maxRowsPerBatch && r.batchBytes <= info.maxBatchBytes))
  {
  }

  /** Binding the type that would be inferred anyway sends the same parameter. */
  lemma BindingInferredTypeIsNeutral(lib: Library, v: Value, p: Parameter)
    requires WellMade(lib, v) && !v.Null? && EncodeArgument(lib, Bare(v)) == Success(p)
    ensures p.declared.Some? && EncodeArgument(lib, Bound(v, p.declared)) == Success(p)
  {
    hide Encode, EncodeUndeclared, Infer, WellMade, WellFormed;
    CodecTheorems.InferredTypeIsNeutral(lib, v, p.value.value);
  }
}
