/**
 The callback client `kv_seek_async_callback`: a reactor with one slot for the continuation of the
 read in flight and one for that of the write in flight, driven by completions.
 */
module KvReactor {
  import opened Base
  import opened KvMessages
  import opened KvScript

  /** The lambdas passed to `read_start`, with what they capture by value. */
  datatype ReadContinuation = OnTxId | OnOpenReply | OnSeekReply(cursorId: uint32) | OnCloseReply

  /** The lambdas passed to `write_start`, with what they capture by value. */
  datatype WriteContinuation = OnOpenSent | OnSeekSent(cursorId: uint32) | OnCloseSent(cursorId: uint32)

  /** A `std::function` member: never set, waiting for its completion, or already called. */
  datatype Slot<C> = Empty | Armed(continuation: C) | Fired(continuation: C)

  /** The operation in flight after the completed operations `log`, if the conversation goes on. */
  function Awaited(r: Request, log: seq<Event>): Option<Action> {
    if Complete(log) then None else Some(NextAction(r, log))
  }

  /** The continuation that must sit in the read slot when operation `n` is a read in flight. */
  function ReadContinuationAt(n: nat, id: uint32): ReadContinuation {
    if n == 0 then OnTxId else if n == 2 then OnOpenReply else if n == 4 then OnSeekReply(id) else OnCloseReply
  }

  function WriteContinuationAt(n: nat, id: uint32): WriteContinuation {
    if n == 1 then OnOpenSent else if n == 3 then OnSeekSent(id) else OnCloseSent(id)
  }

  /** `GrpcKvCallbackReactor`, the request its lambdas refer to, the operations gRPC has in flight and
      the `io_context` the client stops. */
  class Reactor {
    const request: Request
    var readCompleted: Slot<ReadContinuation>
    var writeCompleted: Slot<WriteContinuation>
    var pair: Pair
    var reading: bool
    var writing: Option<Cursor>
    var log: seq<Event>
    var stopped: bool
    /** Number of times a continuation was replaced before it was called. */
    var overwritten: nat

    /** The client's invariant, in terms of the completed operations alone. */
    ghost predicate Valid()
      reads this
    {
      && FollowsScript(request, log) && request.subkey.None?
      && overwritten == 0
      && InFlight() == Awaited(request, log)
      && !(reading && writing.Some?)
      && (stopped <==> AllOk(log))
      && (reading <==> readCompleted.Armed?)
      && (writing.Some? <==> writeCompleted.Armed?)
      && (reading ==> readCompleted.continuation == ReadContinuationAt(|log|, OpenId(log)))
      && (writing.Some? ==> writeCompleted.continuation == WriteContinuationAt(|log|, OpenId(log)))
    }

    /** The one operation in flight. */
    ghost function InFlight(): Option<Action>
      reads this
    {
      if reading then Some(DoRead) else if writing.Some? then Some(DoWrite(writing.value)) else None
    }

    /** Construction and the first `read_start` of the client. */
    constructor (table: string, key: Bytes)
      ensures Valid() && log == [] && request == Request(table, key, None)
    {
      request := Request(table, key, None);
      readCompleted, writeCompleted, pair := Empty, Empty, DEFAULT_PAIR;
      reading, writing, log, stopped, overwritten := false, None, [], false, 0;
      new;
      ReadStart(OnTxId);
    }

    method ReadStart(completed: ReadContinuation)
      modifies this`readCompleted, this`overwritten, this`reading
      ensures readCompleted == Armed(completed) && reading
      ensures overwritten == old(overwritten) + if old(readCompleted).Armed? then 1 else 0
    {
      if readCompleted.Armed? {
        overwritten := overwritten + 1;
      }
      readCompleted := Armed(completed);
      reading := true;
    }

    method WriteStart(msg: Cursor, completed: WriteContinuation)
      modifies this`writeCompleted, this`overwritten, this`writing
      ensures writeCompleted == Armed(completed) && writing == Some(msg)
      ensures overwritten == old(overwritten) + if old(writeCompleted).Armed? then 1 else 0
    {
      if writeCompleted.Armed? {
        overwritten := overwritten + 1;
      }
      writeCompleted := Armed(completed);
      writing := Some(msg);
    }

    /** gRPC completes the read in flight: the stored continuation is called with the pair member. */
    method OnReadDone(ok: bool, received: Pair)
      requires Valid() && reading
      modifies this
      ensures Valid()
      ensures log == old(log) + [Perform(DoRead, Outcome(ok, received))]
    {
      Extend(request, log, Outcome(ok, received));
      reading := false;
      var reported := if ok then received else DEFAULT_PAIR;
      if ok {
        pair := received;
      }
      log := log + [Read(ok, reported)];
      var continuation := readCompleted.continuation;
      readCompleted := Fired(continuation);
      if !ok {
        return;
      }
      match continuation {
        case OnTxId =>
          WriteStart(DEFAULT_CURSOR.(op := OPEN, bucketName := request.table), OnOpenSent);
        case OnOpenReply =>
          var cursorId := pair.cursorId;
          WriteStart(DEFAULT_CURSOR.(op := SEEK, cursor := cursorId, k := request.key), OnSeekSent(cursorId));
        case OnSeekReply(cursorId) =>
          WriteStart(DEFAULT_CURSOR.(op := CLOSE, cursor := cursorId), OnCloseSent(cursorId));
        case OnCloseReply =>
          stopped := true;
      }
    }

    /** gRPC completes the write in flight. */
    method OnWriteDone(ok: bool)
      requires Valid() && writing.Some?
      modifies this
      ensures Valid()
      ensures log == old(log) + [Write(old(writing).value, ok)]
    {
      Extend(request, log, Outcome(ok, DEFAULT_PAIR));
      log := log + [Write(writing.value, ok)];
      writing := None;
      var continuation := writeCompleted.continuation;
      writeCompleted := Fired(continuation);
      if !ok {
        return;
      }
      match continuation {
        case OnOpenSent =>
          ReadStart(OnOpenReply);
        case OnSeekSent(cursorId) =>
          ReadStart(OnSeekReply(cursorId));
        case OnCloseSent(_) =>
          ReadStart(OnCloseReply);
      }
    }
  }

  /** `kv_seek_async_callback` up to the `n`-th completion: gRPC completes operations in flight, one at
      a time and with outcomes of its own choosing; were two in flight, `readFirst` says which is next.
      The operations are those of `kv_seek` cut after `n`, one operation at most is in flight, namely
      the next of the script, and the `io_context` is stopped exactly after seven successes. */
  method CallbackClient(table: string, key: Bytes, env: Env, readFirst: nat -> bool, n: nat)
    returns (log: seq<Event>, inFlight: Option<Action>, stopped: bool, overwritten: nat)
    ensures log == RunN(Request(table, key, None), env, n)
    ensures inFlight == Awaited(Request(table, key, None), log)
    ensures stopped <==> n >= OPERATIONS && forall i: nat | i < OPERATIONS :: env(i).ok
    ensures overwritten == 0
  {
    ghost var r := Request(table, key, None);
    var reactor := new Reactor(table, key);
    var i := 0;
    while i < n
      invariant i <= n
      invariant reactor.Valid() && reactor.request == r
      invariant reactor.log == RunN(r, env, i)
    {
      var outcome, preferRead := env(|reactor.log|), readFirst(i);
      if reactor.reading && (reactor.writing.None? || preferRead) {
        reactor.OnReadDone(outcome.ok, outcome.pair);
      } else if reactor.writing.Some? {
        reactor.OnWriteDone(outcome.ok);
      }
      i := i + 1;
    }
    StoppedIff(r, env, n);
    inFlight := if reactor.reading then Some(DoRead)
                else if reactor.writing.Some? then Some(DoWrite(reactor.writing.value)) else None;
    return reactor.log, inFlight, reactor.stopped, reactor.overwritten;
  }

  lemma StoppedIff(r: Request, env: Env, n: nat)
    ensures AllOk(RunN(r, env, n)) <==> n >= OPERATIONS && forall i: nat | i < OPERATIONS :: env(i).ok
  {
    RunNFollowsScript(r, env, n);
    RunSucceedsIff(r, env);
    if n >= OPERATIONS {
      RunNIsPrefix(r, env, OPERATIONS, n);
      RunNFollowsScript(r, env, OPERATIONS);
    }
  }

  /** Refinement of `kv_seek`, completion by completion: what the callback client has done after `n`
      completions is a prefix of the blocking run, and what it has in flight is the blocking client's
      next operation; nothing is in flight once an operation failed or the run is over. */
  lemma CallbackRefinesBlocking(r: Request, env: Env, n: nat)
    ensures
      var log, run := RunN(r, env, n), Run(r, env);
      && log <= run
      && (Awaited(r, log).Some? <==> |log| < |run|)
      && (|log| < |run| ==> |log| == n && Matches(Awaited(r, log).value, run[n]))
      && (Failed(log) || n >= OPERATIONS ==> log == run && Awaited(r, log).None?)
  {
    var log, run := RunN(r, env, n), Run(r, env);
    RunNFollowsScript(r, env, n);
    RunNFollowsScript(r, env, OPERATIONS);
    if n < OPERATIONS {
      RunNIsPrefix(r, env, n, OPERATIONS);
      if !Complete(log) {
        assert RunN(r, env, n + 1) == log + [Perform(NextAction(r, log), env(n))];
        RunNIsPrefix(r, env, n + 1, OPERATIONS);
        assert run[n] == RunN(r, env, n + 1)[n];
      }
    } else {
      RunNIsPrefix(r, env, OPERATIONS, n);
    }
  }
}
