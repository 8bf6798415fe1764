/** The Engine API handlers, with the JSON decoding of parameters, the backend and the database as parameters. */
module EngineApi {
  import opened Base
  import opened PayloadId

  datatype Json =
    | Null | Bool(b: bool) | Number(n: int) | String(s: string)
    | Array(items: seq<Json>) | Object(members: seq<(string, Json)>)

  /** `json::size()`: null is empty, and a string, number or boolean counts as one element. */
  function Size(j: Json): nat {
    match j
    case Null => 0
    case Array(items) => |items|
    case Object(members) => |members|
    case _ => 1
  }

  /** What is thrown: `boost::system::system_error`, any other `std::exception`, anything else. */
  datatype Exception = SystemError(message: string, what: string) | StdException(what: string) | UnknownException

  datatype Outcome<+T> = Return(value: T) | Throw(e: Exception)

  /** 32 bytes */
  type Hash = Bytes
  const ZERO_HASH: Hash := seq(32, _ => 0)

  datatype ForkChoiceState = ForkChoiceState(headBlockHash: Hash, safeBlockHash: Hash, finalizedBlockHash: Hash)
  datatype PayloadAttributes = PayloadAttributes(timestamp: uint64, prevRandao: Hash, suggestedFeeRecipient: Bytes)
  datatype ExecutionPayload = ExecutionPayload(encoded: Bytes)

  /** The payload id a parameter denotes: `get<std::string>` followed by `std::stoul`, both of which throw. */
  function DecodePayloadId(j: Json): Option<uint64> {
    if !j.String? then None
    else match Stoul16(j.s)
      case Value(n) => Some(n)
      case _ => None
  }

  /** What the handlers take from the JSON library and the `from_json` functions: conversions, which throw on
      malformed input, the rendering of JSON, and what is thrown when something is indexed that is no array. */
  datatype Library = Library(
    payloadId: Json -> Outcome<uint64>,
    payload: Json -> Outcome<ExecutionPayload>,
    forkChoice: Json -> Outcome<ForkChoiceState>,
    attributes: Json -> Outcome<PayloadAttributes>,
    dump: Json -> string,
    notIndexable: Json -> Exception)

  /** Payload ids are read as they are: a value exactly for what denotes one, and that value. */
  ghost predicate ReadsPayloadIds(lib: Library) {
    forall j :: match DecodePayloadId(j)
                case Some(n) => lib.payloadId(j) == Return(n)
                case None => lib.payloadId(j).Throw?
  }

  /** `params[i]`: only arrays can be indexed, anything else throws. */
  function Index(notIndexable: Json -> Exception, j: Json, i: nat): Outcome<Json>
    requires i < Size(j)
  {
    if j.Array? then Return(j.items[i]) else Throw(notIndexable(j))
  }

  datatype BackendCall =
    | GetPayload(payloadId: uint64)
    | NewPayload(payload: ExecutionPayload)
    | ForkChoiceUpdated(state: ForkChoiceState, attributes: Option<PayloadAttributes>)

  datatype Reply = Content(id: uint32, result: Json) | Error(id: uint32, code: int, message: string)

  const SERVER_ERROR := 100
  const UNKNOWN_PAYLOAD := -38001

  function MessageOf(e: Exception): string {
    match e
    case SystemError(message, _) => message
    case StdException(what) => what
    case UnknownException => "unexpected exception"
  }

  function ErrorFor(id: uint32, code: int, e: Exception): Reply {
    Error(id, code, MessageOf(e))
  }

  datatype Method = GetPayloadV1 | NewPayloadV1 | ForkChoiceUpdatedV1

  datatype Request = Request(method_: Method, id: uint32, params: Json)

  /** The error code of a request that is not answered: -38001 is only for a well-sized payload request. */
  function FailureCode(request: Request): int {
    if request.method_.GetPayloadV1? && Size(request.params) == 1 then UNKNOWN_PAYLOAD else SERVER_ERROR
  }

  /** The backend call a request stands for, if it is well formed: the specification of all three
      handlers, with no exceptions and no order of evaluation. */
  function Meaning(lib: Library, request: Request): Option<BackendCall> {
    match request.method_
    case GetPayloadV1 => GetPayloadMeaning(lib, request.params)
    case NewPayloadV1 => NewPayloadMeaning(lib, request.params)
    case ForkChoiceUpdatedV1 => ForkChoiceMeaning(lib, request.params)
  }

  function GetPayloadMeaning(lib: Library, params: Json): Option<BackendCall> {
    if params.Array? && |params.items| == 1 && lib.payloadId(params.items[0]).Return?
    then Some(GetPayload(lib.payloadId(params.items[0]).value)) else None
  }

  function NewPayloadMeaning(lib: Library, params: Json): Option<BackendCall> {
    if params.Array? && |params.items| == 1 && lib.payload(params.items[0]).Return?
    then Some(NewPayload(lib.payload(params.items[0]).value)) else None
  }

  function ForkChoiceMeaning(lib: Library, params: Json): Option<BackendCall> {
    if !params.Array? || !(1 <= |params.items| <= 2) || lib.forkChoice(params.items[0]).Throw? then None else
      var state := lib.forkChoice(params.items[0]).value;
      if state.safeBlockHash == ZERO_HASH || state.finalizedBlockHash == ZERO_HASH then None
      else if |params.items| == 1 || params.items[1] == Null then Some(ForkChoiceUpdated(state, None))
      else if lib.attributes(params.items[1]).Throw? then None
      else Some(ForkChoiceUpdated(state, Some(lib.attributes(params.items[1]).value)))
  }

  const INVALID_GET_PAYLOAD := "invalid engine_getPayloadV1 params: "
  const INVALID_NEW_PAYLOAD := "invalid engine_newPayloadV1 params: "
  const INVALID_FORK_CHOICE := "invalid engine_forkchoiceUpdatedV1 params: "
  const EMPTY_SAFE_HASH := "safe block hash is empty"
  const EMPTY_FINALIZED_HASH := "finalized block hash is empty"

  /** What a request that means nothing is told: the first thing wrong with it. */
  function Complaint(lib: Library, request: Request): string {
    match request.method_
    case GetPayloadV1 => PayloadComplaint(lib, request.params, INVALID_GET_PAYLOAD, lib.payloadId)
    case NewPayloadV1 => PayloadComplaint(lib, request.params, INVALID_NEW_PAYLOAD, lib.payload)
    case ForkChoiceUpdatedV1 => ForkChoiceComplaint(lib, request.params)
  }

  function PayloadComplaint<T>(lib: Library, params: Json, invalid: string, decode: Json -> Outcome<T>): string {
    if Size(params) != 1 then invalid + lib.dump(params)
    else if !params.Array? then MessageOf(lib.notIndexable(params))
    else if decode(params.items[0]).Throw? then MessageOf(decode(params.items[0]).e) else ""
  }

  function ForkChoiceComplaint(lib: Library, params: Json): string {
    if !(1 <= Size(params) <= 2) then INVALID_FORK_CHOICE + lib.dump(params)
    else if !params.Array? then MessageOf(lib.notIndexable(params))
    else if lib.forkChoice(params.items[0]).Throw? then MessageOf(lib.forkChoice(params.items[0]).e)
    else if lib.forkChoice(params.items[0]).value.safeBlockHash == ZERO_HASH then EMPTY_SAFE_HASH
    else if lib.forkChoice(params.items[0]).value.finalizedBlockHash == ZERO_HASH then EMPTY_FINALIZED_HASH
    else if |params.items| == 2 && lib.attributes(params.items[1]).Throw?
    then MessageOf(lib.attributes(params.items[1]).e) else ""
  }

  /** `EngineRpcApi` with its backend: the i-th backend call returns or throws as `backend(i)` says. */
  class EngineRpcApi {
    const lib: Library
    const backend: nat -> Outcome<Json>
    var calls: seq<BackendCall>

    constructor (lib: Library, backend: nat -> Outcome<Json>)
      ensures this.lib == lib && this.backend == backend && calls == []
    {
      this.lib, this.backend, calls := lib, backend, [];
    }

    /** `co_await backend_->…` */
    method Call(call: BackendCall) returns (outcome: Outcome<Json>)
      modifies this
      ensures calls == old(calls) + [call] && outcome == backend(|old(calls)|)
    {
      outcome := backend(|calls|);
      calls := calls + [call];
    }

    method HandleGetPayloadV1(id: uint32, params: Json) returns (reply: Reply)
      modifies this
      ensures Handled(lib, backend, Request(GetPayloadV1, id, params), old(calls), calls, reply)
    {
      if Size(params) != 1 {
        return Error(id, SERVER_ERROR, INVALID_GET_PAYLOAD + lib.dump(params));
      }
      var param := Index(lib.notIndexable, params, 0);
      if param.Throw? {
        return ErrorFor(id, UNKNOWN_PAYLOAD, param.e);
      }
      var payloadId := lib.payloadId(param.value);
      if payloadId.Throw? {
        return ErrorFor(id, UNKNOWN_PAYLOAD, payloadId.e);
      }
      var payload := Call(GetPayload(payloadId.value));
      if payload.Throw? {
        return ErrorFor(id, UNKNOWN_PAYLOAD, payload.e);
      }
      return Content(id, payload.value);
    }

    method HandleNewPayloadV1(id: uint32, params: Json) returns (reply: Reply)
      modifies this
      ensures Handled(lib, backend, Request(NewPayloadV1, id, params), old(calls), calls, reply)
    {
      if Size(params) != 1 {
        return Error(id, SERVER_ERROR, INVALID_NEW_PAYLOAD + lib.dump(params));
      }
      var param := Index(lib.notIndexable, params, 0);
      if param.Throw? {
        return ErrorFor(id, SERVER_ERROR, param.e);
      }
      var payload := lib.payload(param.value);
      if payload.Throw? {
        return ErrorFor(id, SERVER_ERROR, payload.e);
      }
      var newPayload := Call(NewPayload(payload.value));
      if newPayload.Throw? {
        return ErrorFor(id, SERVER_ERROR, newPayload.e);
      }
      return Content(id, newPayload.value);
    }

    method HandleForkChoiceUpdatedV1(id: uint32, params: Json) returns (reply: Reply)
      modifies this
      ensures Handled(lib, backend, Request(ForkChoiceUpdatedV1, id, params), old(calls), calls, reply)
    {
      if Size(params) != 1 && Size(params) != 2 {
        return Error(id, SERVER_ERROR, INVALID_FORK_CHOICE + lib.dump(params));
      }
      var param := Index(lib.notIndexable, params, 0);
      if param.Throw? {
        return ErrorFor(id, SERVER_ERROR, param.e);
      }
      var state := lib.forkChoice(param.value);
      if state.Throw? {
        return ErrorFor(id, SERVER_ERROR, state.e);
      }
      if state.value.safeBlockHash == ZERO_HASH {
        return Error(id, SERVER_ERROR, EMPTY_SAFE_HASH);
      }
      if state.value.finalizedBlockHash == ZERO_HASH {
        return Error(id, SERVER_ERROR, EMPTY_FINALIZED_HASH);
      }
      var forkUpdated;
      if Size(params) == 2 && params.items[1] != Null {
        var attributes := lib.attributes(params.items[1]);
        if attributes.Throw? {
          return ErrorFor(id, SERVER_ERROR, attributes.e);
        }
        forkUpdated := Call(ForkChoiceUpdated(state.value, Some(attributes.value)));
      } else {
        forkUpdated := Call(ForkChoiceUpdated(state.value, None));
      }
      if forkUpdated.Throw? {
        return ErrorFor(id, SERVER_ERROR, forkUpdated.e);
      }
      return Content(id, forkUpdated.value);
    }

    method Handle(request: Request) returns (reply: Reply)
      modifies this
      ensures Handled(lib, backend, request, old(calls), calls, reply)
    {
      match request.method_ {
        case GetPayloadV1 => reply := HandleGetPayloadV1(request.id, request.params);
        case NewPayloadV1 => reply := HandleNewPayloadV1(request.id, request.params);
        case ForkChoiceUpdatedV1 => reply := HandleForkChoiceUpdatedV1(request.id, request.params);
      }
    }
  }

  /** An answer to a request with the given meaning, in the light of what the backend does: the backend is
      called exactly for a request that means something, once and with that meaning; what it returns is
      the content of the reply; everything else is an error reply that says what went wrong. */
  ghost predicate Answered(backend: nat -> Outcome<Json>, id: uint32, failureCode: int, complaint: string,
                           meaning: Option<BackendCall>,
                           before: seq<BackendCall>, after: seq<BackendCall>, reply: Reply)
  {
    && after == before + (if meaning.Some? then [meaning.value] else [])
    && reply == if meaning.None? then Error(id, failureCode, complaint)
                else match backend(|before|)
                  case Return(value) => Content(id, value)
                  case Throw(e) => Error(id, failureCode, MessageOf(e))
  }

  /** One handler call. */
  ghost predicate Handled(lib: Library, backend: nat -> Outcome<Json>, request: Request,
                          before: seq<BackendCall>, after: seq<BackendCall>, reply: Reply)
  {
    Answered(backend, request.id, FailureCode(request), Complaint(lib, request), Meaning(lib, request),
             before, after, reply)
  }

  function ContentReplies(replies: seq<Reply>): nat {
    if replies == [] then 0 else
      var n := |replies| - 1;
      ContentReplies(replies[..n]) + if replies[n].Content? then 1 else 0
  }

  function NormalReturns(backend: nat -> Outcome<Json>, n: nat): nat {
    if n == 0 then 0 else NormalReturns(backend, n - 1) + if backend(n - 1).Return? then 1 else 0
  }

  function Meanings(lib: Library, requests: seq<Request>): (meanings: seq<Option<BackendCall>>)
    ensures |meanings| == |requests|
  {
    if requests == [] then [] else Meanings(lib, requests[..|requests| - 1]) + [Meaning(lib, requests[|requests| - 1])]
  }

  lemma MeaningsOfOneMore(lib: Library, requests: seq<Request>, i: nat)
    requires i < |requests|
    ensures Meanings(lib, requests[..i + 1]) == Meanings(lib, requests[..i]) + [Meaning(lib, requests[i])]
  {
    assert requests[..i + 1][..i] == requests[..i];
  }

  lemma {:induction false} MeaningsAt(lib: Library, requests: seq<Request>, i: nat)
    requires i < |requests|
    ensures Meanings(lib, requests)[i] == Meaning(lib, requests[i])
  {
    if i < |requests| - 1 {
      MeaningsAt(lib, requests[..|requests| - 1], i);
    }
  }

  /** The calls that are there, in order. */
  function Somes(meanings: seq<Option<BackendCall>>): (calls: seq<BackendCall>)
    ensures |calls| <= |meanings|
  {
    if meanings == [] then [] else
      var last := meanings[|meanings| - 1];
      Somes(meanings[..|meanings| - 1]) + if last.Some? then [last.value] else []
  }

  lemma {:induction false} SomesCameFrom(meanings: seq<Option<BackendCall>>, c: BackendCall)
    requires c in Somes(meanings)
    ensures Some(c) in meanings
  {
    var n := |meanings| - 1;
    if c in Somes(meanings[..n]) {
      SomesCameFrom(meanings[..n], c);
    }
  }

  /** The books after one more answer. */
  lemma OneMoreAnswered(backend: nat -> Outcome<Json>, id: uint32, failureCode: int, complaint: string,
                        meanings: seq<Option<BackendCall>>, meaning: Option<BackendCall>,
                        before: seq<BackendCall>, after: seq<BackendCall>, replies: seq<Reply>, reply: Reply)
    requires Answered(backend, id, failureCode, complaint, meaning, before, after, reply)
    requires before == Somes(meanings) && ContentReplies(replies) == NormalReturns(backend, |before|)
    ensures after == Somes(meanings + [meaning])
    ensures ContentReplies(replies + [reply]) == NormalReturns(backend, |after|)
  {
    SomesOfOneMore(meanings, meaning);
    ContentOfOneMore(replies, reply);
    if meaning.Some? {
      assert |after| == |before| + 1;
    } else {
      assert after == before;
    }
  }

  lemma SomesOfOneMore(meanings: seq<Option<BackendCall>>, meaning: Option<BackendCall>)
    ensures Somes(meanings + [meaning]) == Somes(meanings) + if meaning.Some? then [meaning.value] else []
  {
    assert (meanings + [meaning])[..|meanings|] == meanings;
  }

  lemma ContentOfOneMore(replies: seq<Reply>, reply: Reply)
    ensures ContentReplies(replies + [reply]) == ContentReplies(replies) + if reply.Content? then 1 else 0
  {
    assert (replies + [reply])[..|replies|] == replies;
  }

  /** Any sequence of requests: one reply each, in order; the backend calls are exactly the meanings of
      the requests, so at most one each; and content replies are as many as normal backend returns. */
  method Serve(lib: Library, backend: nat -> Outcome<Json>, requests: seq<Request>)
    returns (replies: seq<Reply>, calls: seq<BackendCall>)
    ensures |replies| == |requests| && forall i | 0 <= i < |replies| :: replies[i].id == requests[i].id
    ensures calls == Somes(Meanings(lib, requests)) && |calls| <= |requests|
    ensures ContentReplies(replies) == NormalReturns(backend, |calls|)
  {
    var api := new EngineRpcApi(lib, backend);
    replies := [];
    for i := 0 to |requests|
      invariant |replies| == i && forall j | 0 <= j < i :: replies[j].id == requests[j].id
      invariant api.calls == Somes(Meanings(lib, requests[..i])) && api.lib == lib && api.backend == backend
      invariant ContentReplies(replies) == NormalReturns(backend, |api.calls|)
    {
      ghost var before := api.calls;
      var reply := api.Handle(requests[i]);
      MeaningsOfOneMore(lib, requests, i);
      OneMoreAnswered(backend, requests[i].id, FailureCode(requests[i]), Complaint(lib, requests[i]),
                      Meanings(lib, requests[..i]), Meaning(lib, requests[i]), before, api.calls, replies, reply);
      replies := replies + [reply];
    }
    assert requests[..|requests|] == requests;
    calls := api.calls;
  }

  /** The request gives payload attributes. */
  predicate GivesAttributes(request: Request) {
    request.params.Array? && |request.params.items| == 2 && request.params.items[1] != Null
  }

  lemma ForkChoiceMeans(lib: Library, request: Request, call: BackendCall)
    requires Meaning(lib, request) == Some(call) && call.ForkChoiceUpdated?
    ensures call.state.safeBlockHash != ZERO_HASH && call.state.finalizedBlockHash != ZERO_HASH
    ensures request.method_.ForkChoiceUpdatedV1? && (call.attributes.Some? <==> GivesAttributes(request))
  {
  }

  /** Every fork-choice call the handlers make carries non-zero safe and finalized hashes, and comes from a
      request whose second parameter is given and not null exactly when the call has attributes. */
  lemma ForkChoiceCalls(lib: Library, requests: seq<Request>, call: BackendCall)
    requires call in Somes(Meanings(lib, requests)) && call.ForkChoiceUpdated?
    ensures call.state.safeBlockHash != ZERO_HASH && call.state.finalizedBlockHash != ZERO_HASH
    ensures exists request | request in requests ::
              && request.method_.ForkChoiceUpdatedV1? && Meaning(lib, request) == Some(call)
              && (call.attributes.Some? <==> GivesAttributes(request))
  {
    SomesCameFrom(Meanings(lib, requests), call);
    var i :| 0 <= i < |requests| && Meanings(lib, requests)[i] == Some(call);
    MeaningsAt(lib, requests, i);
    ForkChoiceMeans(lib, requests[i], call);
  }

  lemma PayloadIdIsDecoded(text: string, digits: string)
    requires AllHex(digits) && digits != ""
    requires text == digits || text == "0x" + digits || text == "0X" + digits
    ensures DecodePayloadId(String(text)) == if ValueOf(digits) < TWO_TO_64 then Some(ValueOf(digits)) else None
  {
    DigitStringsAreRead(digits);
  }

  /** Payload ids: the text of every number below 2^64, in any of its spellings, reaches the backend as
      that number; digits denoting more reach no backend and are answered with -38001. */
  lemma PayloadIdsReachBackend(lib: Library, backend: nat -> Outcome<Json>, id: uint32, text: string, digits: string,
                               before: seq<BackendCall>, after: seq<BackendCall>, reply: Reply)
    requires AllHex(digits) && digits != "" && ReadsPayloadIds(lib)
    requires text == digits || text == "0x" + digits || text == "0X" + digits
    requires Handled(lib, backend, Request(GetPayloadV1, id, Array([String(text)])), before, after, reply)
    ensures ValueOf(digits) < TWO_TO_64 ==> after == before + [GetPayload(ValueOf(digits))]
    ensures ValueOf(digits) >= TWO_TO_64 ==> after == before && reply.Error? && reply.code == -38001
  {
    PayloadIdIsDecoded(text, digits);
    var j := String(text);
    assert DecodePayloadId(j).Some? ==> lib.payloadId(j) == Return(DecodePayloadId(j).value);
    assert DecodePayloadId(j).None? ==> lib.payloadId(j).Throw?;
  }

  // ---------------------------------------------------------------- the handlers in plain terms

  /** The text for an exception. */
  ghost predicate TextFor(e: Exception, text: string) {
    && (e.SystemError? ==> text == e.message)
    && (e.StdException? ==> text == e.what)
    && (e.UnknownException? ==> text == "unexpected exception")
  }

  /** An error reply for an exception. */
  ghost predicate ErrorOf(id: uint32, code: int, e: Exception, reply: Reply) {
    reply.Error? && reply.id == id && reply.code == code && TextFor(e, reply.message)
  }

  /** Parameters that are counted as one but cannot be indexed. */
  predicate CountsAsOne(params: Json) {
    params.Bool? || params.Number? || params.String? || (params.Object? && |params.members| == 1)
  }

  /** Parameters that are counted as `n`, for any other `n`. */
  predicate CountsAs(params: Json, n: nat) {
    match params
    case Null => n == 0
    case Array(items) => n == |items|
    case Object(members) => n == |members|
    case _ => n == 1
  }

  lemma CountsAsSize(params: Json, n: nat)
    ensures CountsAs(params, n) <==> n == Size(params)
  {
  }

  /** What a call with the decoded argument comes to: the backend's value, or its exception. */
  ghost predicate Forwarded(backend: nat -> Outcome<Json>, id: uint32, code: int, call: BackendCall,
                            before: seq<BackendCall>, after: seq<BackendCall>, reply: Reply)
  {
    && after == before + [call]
    && (forall value | backend(|before|) == Return(value) :: reply == Content(id, value))
    && (forall e | backend(|before|) == Throw(e) :: ErrorOf(id, code, e, reply))
  }

  /** `engine_getPayloadV1`, request by request: an id that can be read reaches the backend and nothing else does;
      bad parameters are told apart by their number. */
  lemma GetPayloadPlainly(lib: Library, backend: nat -> Outcome<Json>, id: uint32, params: Json,
                          before: seq<BackendCall>, after: seq<BackendCall>, reply: Reply)
    requires Handled(lib, backend, Request(GetPayloadV1, id, params), before, after, reply)
    ensures forall p, n | params == Array([p]) && lib.payloadId(p) == Return(n) ::
              Forwarded(backend, id, -38001, GetPayload(n), before, after, reply)
    ensures forall p, e | params == Array([p]) && lib.payloadId(p) == Throw(e) ::
              after == before && ErrorOf(id, -38001, e, reply)
    ensures CountsAsOne(params) ==> after == before && ErrorOf(id, -38001, lib.notIndexable(params), reply)
    ensures !CountsAs(params, 1) ==>
              after == before && reply == Error(id, 100, "invalid engine_getPayloadV1 params: " + lib.dump(params))
  {
    CountsAsSize(params, 1);
  }

  /** `engine_newPayloadV1`: the decoded payload is what reaches the backend. */
  lemma NewPayloadPlainly(lib: Library, backend: nat -> Outcome<Json>, id: uint32, params: Json,
                          before: seq<BackendCall>, after: seq<BackendCall>, reply: Reply)
    requires Handled(lib, backend, Request(NewPayloadV1, id, params), before, after, reply)
    ensures forall p, payload | params == Array([p]) && lib.payload(p) == Return(payload) ::
              Forwarded(backend, id, 100, NewPayload(payload), before, after, reply)
    ensures forall p, e | params == Array([p]) && lib.payload(p) == Throw(e) ::
              after == before && ErrorOf(id, 100, e, reply)
    ensures CountsAsOne(params) ==> after == before && ErrorOf(id, 100, lib.notIndexable(params), reply)
    ensures !CountsAs(params, 1) ==>
              after == before && reply == Error(id, 100, "invalid engine_newPayloadV1 params: " + lib.dump(params))
  {
    CountsAsSize(params, 1);
  }

  /** The first parameter is a fork-choice state with both hashes. */
  predicate GivesState(lib: Library, p: Json, state: ForkChoiceState) {
    lib.forkChoice(p) == Return(state) && state.safeBlockHash != ZERO_HASH && state.finalizedBlockHash != ZERO_HASH
  }

  /** `engine_forkchoiceUpdatedV1`, what reaches the backend: the decoded state as it is, with the decoded attributes
      if the second parameter is there and not null. */
  lemma ForkChoicePlainly(lib: Library, backend: nat -> Outcome<Json>, id: uint32, params: Json,
                          before: seq<BackendCall>, after: seq<BackendCall>, reply: Reply)
    requires Handled(lib, backend, Request(ForkChoiceUpdatedV1, id, params), before, after, reply)
    ensures forall p, state | (params == Array([p]) || params == Array([p, Null])) && GivesState(lib, p, state) ::
              Forwarded(backend, id, 100, ForkChoiceUpdated(state, None), before, after, reply)
    ensures forall p, q, state, attributes |
              && params == Array([p, q]) && q != Null
              && GivesState(lib, p, state) && lib.attributes(q) == Return(attributes) ::
              Forwarded(backend, id, 100, ForkChoiceUpdated(state, Some(attributes)), before, after, reply)
  {
  }

  /** Nothing else reaches it: whatever call was made came from such a request. */
  lemma ForkChoiceOnlyFrom(lib: Library, backend: nat -> Outcome<Json>, id: uint32, params: Json,
                           before: seq<BackendCall>, after: seq<BackendCall>, reply: Reply)
    requires Handled(lib, backend, Request(ForkChoiceUpdatedV1, id, params), before, after, reply)
    requires after != before
    ensures params.Array? && 1 <= |params.items| <= 2 && lib.forkChoice(params.items[0]).Return?
    ensures
      var state := lib.forkChoice(params.items[0]).value;
      && GivesState(lib, params.items[0], state)
      && if |params.items| == 2 && params.items[1] != Null
         then lib.attributes(params.items[1]).Return? &&
              after == before + [ForkChoiceUpdated(state, Some(lib.attributes(params.items[1]).value))]
         else after == before + [ForkChoiceUpdated(state, None)]
  {
  }

  /** What is said of the others. */
  lemma ForkChoiceErrors(lib: Library, backend: nat -> Outcome<Json>, id: uint32, params: Json,
                         before: seq<BackendCall>, after: seq<BackendCall>, reply: Reply)
    requires Handled(lib, backend, Request(ForkChoiceUpdatedV1, id, params), before, after, reply)
    ensures !CountsAs(params, 1) && !CountsAs(params, 2) ==>
              reply == Error(id, 100, "invalid engine_forkchoiceUpdatedV1 params: " + lib.dump(params))
    ensures (CountsAs(params, 1) || CountsAs(params, 2)) && !params.Array? ==>
              ErrorOf(id, 100, lib.notIndexable(params), reply)
    ensures params.Array? && 1 <= |params.items| <= 2 ==>
              match lib.forkChoice(params.items[0])
              case Throw(e) => ErrorOf(id, 100, e, reply)
              case Return(state) =>
                && (state.safeBlockHash == ZERO_HASH ==> reply == Error(id, 100, "safe block hash is empty"))
                && (state.safeBlockHash != ZERO_HASH && state.finalizedBlockHash == ZERO_HASH ==>
                      reply == Error(id, 100, "finalized block hash is empty"))
                && (forall e | |params.items| == 2 && params.items[1] != Null && GivesState(lib, params.items[0], state)
                               && lib.attributes(params.items[1]) == Throw(e) :: ErrorOf(id, 100, e, reply))
  {
    CountsAsSize(params, 1);
    CountsAsSize(params, 2);
  }
}
