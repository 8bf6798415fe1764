/** The blocking clients `kv_seek` and `kv_seek_both`. */
module KvBlocking {
  import opened Base
  import opened KvMessages
  import opened KvScript

  /** The calls that end a stream. */
  datatype Closing = WritesDone | Finish

  /** `grpc::ClientReaderWriter`, reduced to the operations performed on it and the closing calls.
      As gRPC demands, no operation may follow a closing call, so `log` comes before `closing`. */
  class ReaderWriter {
    const env: Env
    var log: seq<Event>
    var closing: seq<Closing>

    constructor (env: Env)
      ensures this.env == env && log == [] && closing == []
    {
      this.env, log, closing := env, [], [];
    }

    method Read() returns (ok: bool, pair: Pair)
      requires closing == []
      modifies this`log
      ensures log == old(log) + [Perform(DoRead, env(|old(log)|))]
      ensures ok == env(|old(log)|).ok && pair == Perform(DoRead, env(|old(log)|)).pair
    {
      var e := Perform(DoRead, env(|log|));
      log := log + [e];
      return e.ok, e.pair;
    }

    method Write(msg: Cursor) returns (ok: bool)
      requires closing == []
      modifies this`log
      ensures log == old(log) + [Perform(DoWrite(msg), env(|old(log)|))]
      ensures ok == env(|old(log)|).ok
    {
      var e := Perform(DoWrite(msg), env(|log|));
      log := log + [e];
      return e.ok;
    }

    method Close(call: Closing)
      requires Finish !in closing
      modifies this`closing
      ensures closing == old(closing) + [call]
    {
      closing := closing + [call];
    }
  }

  /** What a blocking client promises about its stream and its exit code. */
  ghost predicate SeekDone(r: Request, env: Env, code: int, log: seq<Event>, closing: seq<Closing>) {
    && FollowsScript(r, log) && Answers(env, log) && Complete(log)
    && closing == (if AllOk(log) then [WritesDone, Finish] else [Finish])
    && code == (if AllOk(log) then 0 else -1)
  }

  /** Exactly `n` scripted operations have been performed and none failed. */
  ghost predicate Ongoing(r: Request, env: Env, log: seq<Event>, n: nat, id: uint32) {
    && FollowsScript(r, log) && Answers(env, log) && !Failed(log)
    && |log| == n && OpenId(log) == id
  }

  /** Scripted operations have been performed up to and including one that failed. */
  ghost predicate Broken(r: Request, env: Env, log: seq<Event>) {
    FollowsScript(r, log) && Answers(env, log) && Failed(log)
  }

  /** `reader_writer->Read`, where the script says to read. */
  method Receive(stream: ReaderWriter, ghost r: Request, ghost n: nat, ghost id: uint32) returns (ok: bool, pair: Pair)
    requires stream.closing == []
    requires n < OPERATIONS && n % 2 == 0 && Ongoing(r, stream.env, stream.log, n, id)
    modifies stream`log
    ensures if ok then Ongoing(r, stream.env, stream.log, n + 1, if n == 2 then pair.cursorId else id)
            else Broken(r, stream.env, stream.log)
  {
    Extend(r, stream.log, stream.env(n));
    ok, pair := stream.Read();
  }

  /** `reader_writer->Write` of the message the script says to write. */
  method Send(stream: ReaderWriter, msg: Cursor, ghost r: Request, ghost n: nat, ghost id: uint32) returns (ok: bool)
    requires stream.closing == []
    requires n < OPERATIONS && Script(r, id, n) == DoWrite(msg) && Ongoing(r, stream.env, stream.log, n, id)
    modifies stream`log
    ensures if ok then Ongoing(r, stream.env, stream.log, n + 1, id) else Broken(r, stream.env, stream.log)
  {
    Extend(r, stream.log, stream.env(n));
    ok := stream.Write(msg);
  }

  /** The exit taken after a failed operation: Finish the stream and return -1. */
  method Abandon(stream: ReaderWriter, ghost r: Request) returns (code: int, log: seq<Event>, closing: seq<Closing>)
    requires stream.closing == [] && Broken(r, stream.env, stream.log)
    modifies stream`closing
    ensures SeekDone(r, stream.env, code, log, closing)
  {
    stream.Close(Finish);
    return -1, stream.log, stream.closing;
  }

  /** The first part of both clients: read the transaction identifier, then open the cursor. */
  method OpenCursor(stream: ReaderWriter, table: string, ghost r: Request) returns (ok: bool, cursorId: uint32)
    requires stream.log == [] && stream.closing == [] && r.table == table
    modifies stream`log
    ensures if ok then Ongoing(r, stream.env, stream.log, 3, cursorId) else Broken(r, stream.env, stream.log)
  {
    cursorId := 0;
    var txidPair;
    ok, txidPair := Receive(stream, r, 0, 0);
    if !ok {
      return;
    }
    var openMessage := DEFAULT_CURSOR.(op := OPEN, bucketName := table);
    ok := Send(stream, openMessage, r, 1, 0);
    if !ok {
      return;
    }
    var openPair;
    ok, openPair := Receive(stream, r, 2, 0);
    cursorId := openPair.cursorId;
  }

  /** The rest of both clients: seek, close the cursor, end the stream. */
  method SeekAndClose(stream: ReaderWriter, seekMessage: Cursor, cursorId: uint32, ghost r: Request)
    returns (code: int, log: seq<Event>, closing: seq<Closing>)
    requires stream.closing == [] && Ongoing(r, stream.env, stream.log, 3, cursorId)
    requires seekMessage == SeekMessage(r, cursorId)
    modifies stream
    ensures SeekDone(r, stream.env, code, log, closing)
  {
    var success := Send(stream, seekMessage, r, 3, cursorId);
    if !success {
      code, log, closing := Abandon(stream, r);
      return;
    }
    var seekPair;
    success, seekPair := Receive(stream, r, 4, cursorId);
    if !success {
      code, log, closing := Abandon(stream, r);
      return;
    }

    var closeMessage := DEFAULT_CURSOR.(op := CLOSE, cursor := cursorId);
    success := Send(stream, closeMessage, r, 5, cursorId);
    if !success {
      code, log, closing := Abandon(stream, r);
      return;
    }
    var closePair;
    success, closePair := Receive(stream, r, 6, cursorId);
    if !success {
      code, log, closing := Abandon(stream, r);
      return;
    }

    stream.Close(WritesDone);
    stream.Close(Finish);
    return 0, stream.log, stream.closing;
  }

  /** `kv_seek` */
  method KvSeek(table: string, key: Bytes, env: Env) returns (code: int, log: seq<Event>, closing: seq<Closing>)
    ensures SeekDone(Request(table, key, None), env, code, log, closing)
  {
    ghost var r := Request(table, key, None);
    var stream := new ReaderWriter(env);
    var success, cursorId := OpenCursor(stream, table, r);
    if !success {
      code, log, closing := Abandon(stream, r);
      return;
    }
    var seekMessage := DEFAULT_CURSOR.(op := SEEK, cursor := cursorId, k := key);
    code, log, closing := SeekAndClose(stream, seekMessage, cursorId, r);
  }

  /** `kv_seek_both` */
  method KvSeekBoth(table: string, key: Bytes, subkey: Bytes, env: Env)
    returns (code: int, log: seq<Event>, closing: seq<Closing>)
    ensures SeekDone(Request(table, key, Some(subkey)), env, code, log, closing)
  {
    ghost var r := Request(table, key, Some(subkey));
    var stream := new ReaderWriter(env);
    var success, cursorId := OpenCursor(stream, table, r);
    if !success {
      code, log, closing := Abandon(stream, r);
      return;
    }
    var seekBothMessage := DEFAULT_CURSOR.(op := SEEK_BOTH, cursor := cursorId, k := key, v := subkey);
    code, log, closing := SeekAndClose(stream, seekBothMessage, cursorId, r);
  }

  /** The promise spelled out: the log is a prefix of the fixed script ended by its first failure, then
      exactly one Finish with nothing after it; 0 and WritesDone just when all seven operations succeed. */
  lemma SeekDoneMeans(r: Request, env: Env, code: int, log: seq<Event>, closing: seq<Closing>)
    requires SeekDone(r, env, code, log, closing)
    ensures log == Run(r, env)
    ensures multiset(closing)[Finish] == 1 && closing[|closing| - 1] == Finish
    ensures code == 0 <==> forall i: nat | i < OPERATIONS :: env(i).ok
    ensures WritesDone in closing <==> code == 0
    ensures code == 0 || code == -1
  {
    RunIsTheOnlyScriptedLog(r, env, log);
    RunSucceedsIff(r, env);
  }
}
