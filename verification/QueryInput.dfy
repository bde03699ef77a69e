/** Whether a query request on the system stream can be the answer to the client's own HTTP query. */
module QueryInput {
  import opened Prelude
  import opened Json
  import S = SystemMessage

  /** Optional parameters the caller left out are `undefined`. */
  datatype HttpQuery =
    | HttpLast(count: SafeInt)
    | HttpFrom(fromTimestamp: SafeInt, fromSequenceNumber: Option<SafeInt>, publisherId: Option<Text>)
    | HttpRange(fromTimestamp: SafeInt, toTimestamp: SafeInt, fromSequenceNumber: Option<SafeInt>,
                toSequenceNumber: Option<SafeInt>, publisherId: Option<Text>, msgChainId: Option<Text>)

  datatype Input = Input(query: HttpQuery, streamId: Text, partition: SafeInt)

  /** `!==` between an optional parameter and a field that may also be `null`. */
  predicate Differs<T(==)>(parameter: Option<T>, field: S.Field<T>) {
    match (parameter, field)
    case (None, Undefined) => false
    case (Some(p), Val(f)) => p != f
    case _ => true
  }

  predicate HasIncompatibleQueryInput(input: Input, request: S.Message)
    requires request.QueryRequest?
  {
    var q := request.query;
    var sameType := (input.query.HttpLast? && q.Last?) || (input.query.HttpFrom? && q.From?) || (input.query.HttpRange? && q.Range?);
    if !sameType then true
    else if input.streamId != request.streamId || input.partition != request.partition then true
    else
      match input.query
      case HttpLast(count) => count != q.last
      case HttpFrom(fromTimestamp, fromSequenceNumber, publisherId) =>
        || fromTimestamp != q.from.timestamp
        || Differs(fromSequenceNumber, q.from.sequenceNumber)
        || Differs(publisherId, q.publisherId)
      case HttpRange(fromTimestamp, toTimestamp, fromSequenceNumber, toSequenceNumber, publisherId, msgChainId) =>
        || fromTimestamp != q.from.timestamp
        || toTimestamp != q.to.timestamp
        || Differs(fromSequenceNumber, q.from.sequenceNumber)
        || Differs(toSequenceNumber, q.to.sequenceNumber)
        || Differs(publisherId, q.publisherId)
        || Differs(msgChainId, q.msgChainId)
  }

  function AsField<T>(parameter: Option<T>): S.Field<T> {
    if parameter.Some? then S.Val(parameter.value) else S.Undefined
  }

  /** The protocol's form of the query. */
  function AsQuery(query: HttpQuery): S.Query {
    match query
    case HttpLast(count) => S.Last(count)
    case HttpFrom(fromTimestamp, fromSequenceNumber, publisherId) =>
      S.From(S.Ref(fromTimestamp, AsField(fromSequenceNumber)), AsField(publisherId), S.Undefined)
    case HttpRange(fromTimestamp, toTimestamp, fromSequenceNumber, toSequenceNumber, publisherId, msgChainId) =>
      S.Range(S.Ref(fromTimestamp, AsField(fromSequenceNumber)), S.Ref(toTimestamp, AsField(toSequenceNumber)),
              AsField(msgChainId), AsField(publisherId), S.Undefined)
  }

  /** `request` asks what `input` asks, as far as the wire can tell. */
  predicate AsksTheSame(input: Input, request: S.Message)
    requires request.QueryRequest?
  {
    && input.streamId == request.streamId
    && input.partition == request.partition
    && S.OnWire(request.query) == S.OnWire(AsQuery(input.query))
  }

  predicate FullySpecified(query: HttpQuery) {
    match query
    case HttpLast(_) => true
    case HttpFrom(_, fromSequenceNumber, publisherId) => fromSequenceNumber.Some? && publisherId.Some?
    case HttpRange(_, _, fromSequenceNumber, toSequenceNumber, publisherId, msgChainId) =>
      fromSequenceNumber.Some? && toSequenceNumber.Some? && publisherId.Some? && msgChainId.Some?
  }

  lemma CompatibleIff(input: Input, request: S.Message)
    requires request.QueryRequest?
    ensures !HasIncompatibleQueryInput(input, request.(query := S.OnWire(request.query))) <==>
            AsksTheSame(input, request) && FullySpecified(input.query)
  {
  }

  /**
   A request that crossed the network is found compatible exactly when it asks the same as the input and
   the input leaves no optional parameter out: a parameter left out is `undefined` here and `null` there.
   */
  lemma ArrivedRequestIsCompatibleIff(input: Input, request: S.Message)
    requires request.QueryRequest? && request.version == S.LATEST_VERSION
    ensures S.Serialize(request).Ok? && S.Deserialize(S.Serialize(request).value) == Ok(S.Arrival(request))
    ensures !HasIncompatibleQueryInput(input, S.Arrival(request)) <==>
            AsksTheSame(input, request) && FullySpecified(input.query)
  {
    S.SerializeArrives(request);
    CompatibleIff(input, request);
  }

  /** Without the wire in between, a request built from the input is always found compatible. */
  lemma LocalRequestIsCompatible(input: Input, request: S.Message)
    requires request.QueryRequest? && request.query == AsQuery(input.query)
    requires request.streamId == input.streamId && request.partition == input.partition
    ensures !HasIncompatibleQueryInput(input, request)
  {
  }
}
