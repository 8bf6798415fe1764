/** `engine_exchangeTransitionConfigurationV1` and the database transaction it begins and must close. */
module TransitionConfig {
  import opened Base
  import opened PayloadId
  import opened EngineApi

  datatype TransitionConfiguration = TransitionConfiguration(
    terminalTotalDifficulty: nat, terminalBlockHash: Hash, terminalBlockNumber: uint64)

  /** The chain configuration read inside the transaction: its terminal total difficulty, if any. */
  datatype ChainConfig = ChainConfig(terminalTotalDifficulty: Option<nat>)

  datatype Exchange = Exchange(id: uint32, params: Json)

  /** What the database does for one request: begin, reading the chain configuration, close. */
  datatype Database = Database(begin: Outcome<()>, chainConfig: Outcome<ChainConfig>, close: Outcome<()>)

  type Decoder = Json -> Outcome<TransitionConfiguration>

  type Encoder = TransitionConfiguration -> Json

  /** What the handler takes from the JSON library and the `from_json` and `to_json` functions. */
  datatype Conversions = Conversions(
    decode: Decoder, encode: Encoder, dump: Json -> string, notIndexable: Json -> Exception)

  /** How a handler call ends: with a reply, or with an exception that leaves the handler. */
  datatype Ending = Replied(reply: Reply) | Escaped(e: Exception)

  const INVALID_EXCHANGE := "invalid engine_exchangeTransitionConfigurationV1 params: "
  const BLOCK_NUMBER_NOT_ZERO := "consensus layer terminal block number is not zero"
  const NO_DIFFICULTY := "execution layer does not have terminal total difficulty"
  const OTHER_DIFFICULTY := "incorrect terminal total difficulty"

  /** The text for an exception, here always that of `what()`. */
  function WhatOf(e: Exception): string {
    match e
    case SystemError(_, what) => what
    case StdException(what) => what
    case UnknownException => "unexpected exception"
  }

  class ExchangeApi {
    const conv: Conversions
    var begun: nat
    var closed: nat

    constructor (conv: Conversions)
      ensures this.conv == conv && begun == 0 && closed == 0
    {
      this.conv, begun, closed := conv, 0, 0;
    }

    /** The handler. A transaction stays open exactly when the configurations disagree. */
    method Handle(request: Exchange, database: Database) returns (ending: Ending)
      modifies this
      ensures begun == old(begun) + (if Begins(conv.decode, request, database) then 1 else 0)
      ensures closed == old(closed) + (if Closes(conv.decode, request, database) then 1 else 0)
      ensures ending == ExpectedEnding(conv, request, database)
      ensures forall p, cl, chain |
                && request.params == Array([p]) && conv.decode(p) == Return(cl)
                && database.begin.Return? && database.chainConfig == Return(chain) && database.close.Return? ::
                Compared(conv, request.id, cl, chain, ending, begun - old(begun), closed - old(closed))
    {
      var params, id := request.params, request.id;
      if Size(params) != 1 {
        return Replied(Error(id, SERVER_ERROR, INVALID_EXCHANGE + conv.dump(params)));
      }
      var param := Index(conv.notIndexable, params, 0);
      if param.Throw? {
        return Escaped(param.e);
      }
      var clConfiguration := conv.decode(param.value);
      if clConfiguration.Throw? {
        return Escaped(clConfiguration.e);
      }
      if database.begin.Throw? {
        return Escaped(database.begin.e);
      }
      begun := begun + 1;
      var reply;
      var chainConfig := database.chainConfig;
      if chainConfig.Throw? {
        reply := Error(id, SERVER_ERROR, WhatOf(chainConfig.e));
      } else {
        var config := chainConfig.value;
        if clConfiguration.value.terminalBlockNumber != 0 {
          return Replied(Error(id, SERVER_ERROR, BLOCK_NUMBER_NOT_ZERO));
        }
        if config.terminalTotalDifficulty.None? {
          return Replied(Error(id, SERVER_ERROR, NO_DIFFICULTY));
        }
        if config.terminalTotalDifficulty.value != clConfiguration.value.terminalTotalDifficulty {
          return Replied(Error(id, SERVER_ERROR, OTHER_DIFFICULTY));
        }
        reply := Content(id, conv.encode(TransitionConfiguration(config.terminalTotalDifficulty.value, ZERO_HASH, 0)));
      }
      if database.close.Throw? {
        return Escaped(database.close.e);
      }
      closed := closed + 1;
      return Replied(reply);
    }
  }

  /** A comparison of the two configurations in plain terms: content, made of the execution layer's own difficulty,
      exactly when no block is named and the difficulties are the same, and then the transaction is closed; otherwise
      what is wrong, and it is left open. */
  ghost predicate Compared(conv: Conversions, id: uint32, cl: TransitionConfiguration, chain: ChainConfig,
                           ending: Ending, begun: int, closed: int)
  {
    var difficulty := chain.terminalTotalDifficulty;
    && ending.Replied? && begun == 1
    && (ending.reply.Content? <==> cl.terminalBlockNumber == 0 && difficulty == Some(cl.terminalTotalDifficulty))
    && (ending.reply.Content? <==> closed == begun)
    && (!ending.reply.Content? ==> closed == 0)
    && (ending.reply.Content? ==>
          ending.reply == Content(id, conv.encode(TransitionConfiguration(difficulty.value, seq(32, _ => 0), 0))))
    && (cl.terminalBlockNumber != 0 ==>
          ending.reply == Error(id, 100, "consensus layer terminal block number is not zero"))
    && (cl.terminalBlockNumber == 0 && difficulty.None? ==>
          ending.reply == Error(id, 100, "execution layer does not have terminal total difficulty"))
    && (cl.terminalBlockNumber == 0 && difficulty.Some? && difficulty.value != cl.terminalTotalDifficulty ==>
          ending.reply == Error(id, 100, "incorrect terminal total difficulty"))
  }

  /** What is wrong with the consensus layer's configuration, if anything. */
  function Disagreement(configuration: TransitionConfiguration, config: ChainConfig): Option<string> {
    if configuration.terminalBlockNumber != 0 then Some(BLOCK_NUMBER_NOT_ZERO)
    else if config.terminalTotalDifficulty.None? then Some(NO_DIFFICULTY)
    else if config.terminalTotalDifficulty.value != configuration.terminalTotalDifficulty then Some(OTHER_DIFFICULTY)
    else None
  }

  predicate Begins(decode: Decoder, request: Exchange, database: Database) {
    Transacts(decode, request) && database.begin.Return?
  }

  /** The transaction is begun and then closed: neither does the request leave early, nor does close fail. */
  predicate Closes(decode: Decoder, request: Exchange, database: Database) {
    Begins(decode, request, database) && !LeavesEarly(decode, request, database) && database.close.Return?
  }

  /** How a request ends: a reply whenever the transaction was begun and closed or the layers disagree. Malformed
      parameters, and failures of begin and close, are exceptions that leave the handler. */
  function ExpectedEnding(conv: Conversions, request: Exchange, database: Database): Ending {
    var params, id := request.params, request.id;
    if Size(params) != 1 then Replied(Error(id, SERVER_ERROR, INVALID_EXCHANGE + conv.dump(params)))
    else if !Transacts(conv.decode, request) then
      Escaped(if params.Array? then conv.decode(params.items[0]).e else conv.notIndexable(params))
    else if !Begins(conv.decode, request, database) then Escaped(database.begin.e)
    else if LeavesEarly(conv.decode, request, database) then
      var configuration := conv.decode(params.items[0]).value;
      Replied(Error(id, SERVER_ERROR, Disagreement(configuration, database.chainConfig.value).value))
    else if !Closes(conv.decode, request, database) then Escaped(database.close.e)
    else if database.chainConfig.Throw? then Replied(Error(id, SERVER_ERROR, WhatOf(database.chainConfig.e)))
    else Replied(Content(id, conv.encode(
           TransitionConfiguration(conv.decode(params.items[0]).value.terminalTotalDifficulty, ZERO_HASH, 0))))
  }

  /** The other requests in plain terms. What cannot be decoded begins no transaction, and all but a wrong number of
      parameters escapes as an exception; so does a failure to begin. An exception while the chain configuration is
      read is replied with its text, after the transaction is closed; a failure to close escapes. */
  lemma EndsPlainly(conv: Conversions, request: Exchange, database: Database)
    ensures
      var params, ending := request.params, ExpectedEnding(conv, request, database);
      var begins, closes := Begins(conv.decode, request, database), Closes(conv.decode, request, database);
      && (!CountsAs(params, 1) ==>
            var text := "invalid engine_exchangeTransitionConfigurationV1 params: " + conv.dump(params);
            !begins && !closes && ending == Replied(Error(request.id, 100, text)))
      && (CountsAsOne(params) ==> !begins && !closes && ending == Escaped(conv.notIndexable(params)))
      && (forall p, e | params == Array([p]) && conv.decode(p) == Throw(e) ::
            !begins && !closes && ending == Escaped(e))
      && (forall p, e | params == Array([p]) && conv.decode(p).Return? && database.begin == Throw(e) ::
            !begins && !closes && ending == Escaped(e))
      && (forall p, e | params == Array([p]) && conv.decode(p).Return? && database.begin.Return?
                        && database.chainConfig == Throw(e) ::
            && begins && (closes <==> database.close.Return?)
            && (closes ==>
                  ending == Replied(Error(request.id, 100,
                                          if e.UnknownException? then "unexpected exception" else e.what)))
            && (!closes ==> ending == Escaped(database.close.e)))
  {
    CountsAsSize(request.params, 1);
  }

  /** The request gets as far as the database. */
  predicate Transacts(decode: Decoder, request: Exchange) {
    request.params.Array? && |request.params.items| == 1 && decode(request.params.items[0]).Return?
  }

  /** The layers were compared and found to disagree: the three early returns. */
  predicate LeavesEarly(decode: Decoder, request: Exchange, database: Database) {
    && Transacts(decode, request) && database.chainConfig.Return?
    && Disagreement(decode(request.params.items[0]).value, database.chainConfig.value).Some?
  }

  /** How many requests left early. */
  function EarlyExits(decode: Decoder, requests: seq<Exchange>, databases: nat -> Database): nat {
    if requests == [] then 0 else
      var n := |requests| - 1;
      EarlyExits(decode, requests[..n], databases) + if LeavesEarly(decode, requests[n], databases(n)) then 1 else 0
  }

  /** How many requests began a transaction and did not close it. */
  function LeftOpen(decode: Decoder, requests: seq<Exchange>, databases: nat -> Database): nat {
    if requests == [] then 0 else
      var n := |requests| - 1;
      LeftOpen(decode, requests[..n], databases)
      + if Begins(decode, requests[n], databases(n)) && !Closes(decode, requests[n], databases(n)) then 1 else 0
  }

  predicate NoDatabaseFailure(databases: nat -> Database, n: nat) {
    forall i: nat | i < n :: databases(i).begin.Return? && databases(i).close.Return?
  }

  /** If begin and close do not fail, early returns are all that leaves transactions open. */
  lemma {:induction false} OnlyEarlyExitsLeaveOpen(decode: Decoder, requests: seq<Exchange>, databases: nat -> Database)
    requires NoDatabaseFailure(databases, |requests|)
    ensures LeftOpen(decode, requests, databases) == EarlyExits(decode, requests, databases)
  {
    if requests != [] {
      OnlyEarlyExitsLeaveOpen(decode, requests[..|requests| - 1], databases);
    }
  }

  lemma {:induction false} NoEarlyExitsIff(decode: Decoder, requests: seq<Exchange>, databases: nat -> Database)
    ensures EarlyExits(decode, requests, databases) == 0 <==>
            forall i: nat | i < |requests| :: !LeavesEarly(decode, requests[i], databases(i))
  {
    if requests != [] {
      var n := |requests| - 1;
      NoEarlyExitsIff(decode, requests[..n], databases);
      assert forall i: nat | i < n :: requests[..n][i] == requests[i];
    }
  }

  /** Over any sequence of requests, the transactions not closed are those of the requests that left early, as
      long as begin and close themselves do not fail; so all are closed exactly when no request leaves early. */
  method ServeExchanges(conv: Conversions, requests: seq<Exchange>, databases: nat -> Database)
    returns (begun: nat, closed: nat)
    ensures begun - closed == LeftOpen(conv.decode, requests, databases)
    ensures NoDatabaseFailure(databases, |requests|) ==>
              && begun - closed == EarlyExits(conv.decode, requests, databases)
              && (begun == closed <==>
                    forall i: nat | i < |requests| :: !LeavesEarly(conv.decode, requests[i], databases(i)))
  {
    var api := new ExchangeApi(conv);
    for i := 0 to |requests|
      invariant api.conv == conv
      invariant api.begun - api.closed == LeftOpen(conv.decode, requests[..i], databases)
    {
      var ending := api.Handle(requests[i], databases(i));
      assert requests[..i + 1][..i] == requests[..i];
    }
    assert requests[..|requests|] == requests;
    if NoDatabaseFailure(databases, |requests|) {
      OnlyEarlyExitsLeaveOpen(conv.decode, requests, databases);
    }
    NoEarlyExitsIff(conv.decode, requests, databases);
    return api.begun, api.closed;
  }

  // ---------------------------------------------------------------- reading the parameter

  /** `json.at(name)`: throws unless there is such a member. */
  function At(j: Json, name: string, missing: Exception): Outcome<Json> {
    if j.Object? then Member(j.members, name, missing) else Throw(missing)
  }

  function Member(members: seq<(string, Json)>, name: string, missing: Exception): Outcome<Json> {
    if members == [] then Throw(missing)
    else if members[0].0 == name then Return(members[0].1)
    else Member(members[1..], name, missing)
  }

  const DIFFICULTY := "terminalTotalDifficulty"
  const BLOCK_HASH := "terminalBlockHash"
  const BLOCK_NUMBER := "terminalBlockNumber"

  /** `from_json` of a configuration, with the conversions of its difficulty and hash as parameters; the block
      number is a hexadecimal string. `bad` is thrown for a member that is missing or no such number. */
  function DecodeConfiguration(number: Json -> Outcome<nat>, hash: Json -> Outcome<Hash>, bad: Exception, j: Json)
    : Outcome<TransitionConfiguration>
  {
    match (At(j, DIFFICULTY, bad), At(j, BLOCK_HASH, bad), At(j, BLOCK_NUMBER, bad))
    case (Return(d), Return(h), Return(n)) =>
      (match (number(d), hash(h), if n.String? then Stol16(n.s) else InvalidArgument)
       case (Return(difficulty), Return(blockHash), Value(blockNumber)) =>
         Return(TransitionConfiguration(difficulty, blockHash, blockNumber))
       case (Throw(e), _, _) => Throw(e)
       case (_, Throw(e), _) => Throw(e)
       case _ => Throw(bad))
    case _ => Throw(bad)
  }

  /** A configuration as JSON. */
  function Configuration(difficulty: Json, hash: Json, blockNumber: string): Json {
    Object([(DIFFICULTY, difficulty), (BLOCK_HASH, hash), (BLOCK_NUMBER, String(blockNumber))])
  }

  /** Every configuration with hexadecimal digits for a block number is read as it is, unless that number is beyond
      the signed range. */
  lemma ConfigurationIsRead(number: Json -> Outcome<nat>, hash: Json -> Outcome<Hash>, bad: Exception,
                            difficulty: Json, blockHash: Json, digits: string)
    requires number(difficulty).Return? && hash(blockHash).Return?
    requires AllHex(digits) && digits != ""
    ensures DecodeConfiguration(number, hash, bad, Configuration(difficulty, blockHash, "0x" + digits))
         == if ValueOf(digits) >= TWO_TO_64 / 2 then Throw(bad) else
              Return(TransitionConfiguration(number(difficulty).value, hash(blockHash).value, ValueOf(digits)))
  {
    MembersAreFound(difficulty, blockHash, "0x" + digits, bad);
    SignedNumbersAreRead(digits);
  }

  lemma MembersAreFound(difficulty: Json, blockHash: Json, blockNumber: string, bad: Exception)
    ensures
      var j := Configuration(difficulty, blockHash, blockNumber);
      && At(j, DIFFICULTY, bad) == Return(difficulty)
      && At(j, BLOCK_HASH, bad) == Return(blockHash)
      && At(j, BLOCK_NUMBER, bad) == Return(String(blockNumber))
  {
    var members := Configuration(difficulty, blockHash, blockNumber).members;
    assert DIFFICULTY[8] != BLOCK_HASH[8] && DIFFICULTY[8] != BLOCK_NUMBER[8] && BLOCK_HASH[13] != BLOCK_NUMBER[13];
    assert members[1..][0] == members[1] && members[1..][1..][0] == members[2];
    assert DIFFICULTY != BLOCK_HASH && DIFFICULTY != BLOCK_NUMBER && BLOCK_HASH != BLOCK_NUMBER;
    assert Member(members, BLOCK_HASH, bad) == Member(members[1..], BLOCK_HASH, bad);
    assert Member(members, BLOCK_NUMBER, bad) == Member(members[1..], BLOCK_NUMBER, bad);
    assert Member(members[1..], BLOCK_NUMBER, bad) == Member(members[1..][1..], BLOCK_NUMBER, bad);
  }

  /** Not every transaction begun is closed: a consensus client that names a terminal block leaves one open,
      whatever the rest of its configuration and that of the execution layer; but a number beyond the signed range
      makes the handler throw before it begins one. */
  method NamedTerminalBlock(number: Json -> Outcome<nat>, hash: Json -> Outcome<Hash>, bad: Exception, encode: Encoder,
                            difficulty: Json, blockHash: Json, digits: string, config: ChainConfig)
    returns (ending: Ending, begun: nat, closed: nat)
    requires number(difficulty).Return? && hash(blockHash).Return?
    requires AllHex(digits) && digits != "" && ValueOf(digits) != 0
    ensures closed == 0
    ensures if ValueOf(digits) < TWO_TO_64 / 2
            then begun == 1 && ending == Replied(Error(1, SERVER_ERROR, BLOCK_NUMBER_NOT_ZERO))
            else begun == 0 && ending == Escaped(bad)
  {
    ConfigurationIsRead(number, hash, bad, difficulty, blockHash, digits);
    var decode := (j: Json) => DecodeConfiguration(number, hash, bad, j);
    var api := new ExchangeApi(Conversions(decode, encode, _ => "", _ => bad));
    var request := Exchange(1, Array([Configuration(difficulty, blockHash, "0x" + digits)]));
    ending := api.Handle(request, Database(Return(()), Return(config), Return(())));
    return ending, api.begun, api.closed;
  }
}
