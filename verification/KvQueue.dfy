/** The completion-queue client `kv_seek_async`. */
module KvQueue {
  import opened Base
  import opened KvMessages
  import opened KvScript
  import KvBlocking

  datatype Tag = START_TAG | OPEN_TAG | SEEK_TAG | CLOSE_TAG | FINISH_TAG

  /** An operation handed to the stream; its completion comes back through the queue. */
  datatype Issued = StartCall | Scripted(action: Action) | FinishCall

  /** What one call of `Next` does: whether there is an event, which outstanding tag it returns, and
      what the completed operation reports. */
  datatype QueueOutcome = QueueOutcome(hasEvent: bool, pick: nat, outcome: Outcome)

  type QueueEnv = nat -> QueueOutcome

  const NEXT_CALLS := OPERATIONS + 1

  /** The tag used for, and awaited after, the i-th issued operation. */
  function TagAt(i: nat): Tag {
    if i < 2 then START_TAG else if i < 4 then OPEN_TAG else if i < 6 then SEEK_TAG
    else if i < 8 then CLOSE_TAG else FINISH_TAG
  }

  /** The i-th issued operation: StartCall, the script, then Finish. */
  function IssuedAt(r: Request, id: uint32, i: nat): Issued {
    if i == 0 then StartCall else if i < NEXT_CALLS then Scripted(Script(r, id, i - 1)) else FinishCall
  }

  /** The cursor id the client reads from the OPEN reply: 0, the default, when that read failed. */
  function ReplyId(env: QueueEnv): uint32 {
    if env(3).outcome.ok then env(3).outcome.pair.cursorId else 0
  }

  /** The asynchronous stream together with its completion queue. `Next` may return any outstanding
      tag, or no event at all. */
  class AsyncStream {
    const env: QueueEnv
    var issued: seq<Issued>
    var outstanding: seq<Tag>
    /** The tags outstanding at each call of `Next`. */
    var waits: seq<seq<Tag>>

    constructor (env: QueueEnv)
      ensures this.env == env && issued == [] && outstanding == [] && waits == []
    {
      this.env, issued, outstanding, waits := env, [], [], [];
    }

    method Issue(operation: Issued, tag: Tag)
      modifies this`issued, this`outstanding
      ensures issued == old(issued) + [operation] && outstanding == old(outstanding) + [tag]
    {
      issued, outstanding := issued + [operation], outstanding + [tag];
    }

    method Next() returns (hasEvent: bool, tag: Tag, outcome: Outcome)
      modifies this`outstanding, this`waits
      ensures waits == old(waits) + [old(outstanding)]
      ensures hasEvent <==> env(|old(waits)|).hasEvent && old(outstanding) != []
      ensures hasEvent ==>
        var pick := env(|old(waits)|).pick % |old(outstanding)|;
        && tag == old(outstanding)[pick]
        && outstanding == old(outstanding)[..pick] + old(outstanding)[pick + 1..]
      ensures !hasEvent ==> outstanding == old(outstanding)
      ensures outcome == env(|old(waits)|).outcome
    {
      var decision := env(|waits|);
      waits := waits + [outstanding];
      outcome := decision.outcome;
      hasEvent, tag := decision.hasEvent && outstanding != [], START_TAG;
      if hasEvent {
        var pick := decision.pick % |outstanding|;
        tag := outstanding[pick];
        outstanding := outstanding[..pick] + outstanding[pick + 1..];
      }
    }
  }

  /** Operations have been issued in script order, and every `Next` so far waited for exactly one
      outstanding tag, that of the operation issued last. */
  ghost predicate InOrder(r: Request, id: uint32, issued: seq<Issued>, waits: seq<seq<Tag>>) {
    && (forall i | 0 <= i < |issued| :: issued[i] == IssuedAt(r, id, i))
    && (forall i | 0 <= i < |waits| :: waits[i] == [TagAt(i)])
  }

  /** What `kv_seek_async` has done when it returns. It gives up before Finish exactly when some `Next`
      had no event; the `ok` flags decide nothing but the cursor id; the Finish it issues is never
      awaited. */
  ghost predicate AsyncDone(r: Request, env: QueueEnv, statusOk: bool,
                            code: int, issued: seq<Issued>, waits: seq<seq<Tag>>, outstanding: seq<Tag>)
  {
    var n := |waits|;
    && InOrder(r, ReplyId(env), issued, waits)
    && 1 <= n <= NEXT_CALLS
    && (forall i: nat | i < n - 1 :: env(i).hasEvent)
    && (n < NEXT_CALLS ==> !env(n - 1).hasEvent)
    && |issued| == (if env(n - 1).hasEvent then n + 1 else n)
    && outstanding == [TagAt(|issued| - 1)]
    && code == (if env(n - 1).hasEvent && statusOk then 0 else -1)
  }

  /** The first `n` operations have been issued and awaited, every `Next` having had an event. */
  ghost predicate Ready(r: Request, env: QueueEnv,
                        issued: seq<Issued>, waits: seq<seq<Tag>>, outstanding: seq<Tag>, n: nat)
  {
    && |issued| == |waits| == n && outstanding == []
    && InOrder(r, ReplyId(env), issued, waits)
    && forall i: nat | i < n :: env(i).hasEvent
  }

  /** Issues operation `n` under `tag`, calls `Next` and compares the tag it returns. */
  method IssueAndWait(stream: AsyncStream, operation: Issued, tag: Tag,
                      ghost r: Request, ghost n: nat, ghost statusOk: bool)
    returns (proceed: bool, pair: Pair)
    requires n < NEXT_CALLS
    requires operation == IssuedAt(r, ReplyId(stream.env), n) && tag == TagAt(n)
    requires Ready(r, stream.env, stream.issued, stream.waits, stream.outstanding, n)
    modifies stream
    ensures proceed ==> Ready(r, stream.env, stream.issued, stream.waits, stream.outstanding, n + 1)
    ensures !proceed ==> AsyncDone(r, stream.env, statusOk, -1, stream.issued, stream.waits, stream.outstanding)
    ensures pair == Perform(DoRead, stream.env(n).outcome).pair
  {
    stream.Issue(operation, tag);
    var hasEvent, gotTag, outcome := stream.Next();
    return hasEvent && gotTag == tag, if outcome.ok then outcome.pair else DEFAULT_PAIR;
  }

  /** Steps 1 and 2: start the call, read the transaction identifier, open the cursor. */
  method StartAndOpen(stream: AsyncStream, table: string, ghost r: Request, ghost statusOk: bool)
    returns (proceed: bool, cursorId: uint32)
    requires stream.issued == [] && stream.waits == [] && stream.outstanding == [] && r.table == table
    modifies stream
    ensures proceed ==> Ready(r, stream.env, stream.issued, stream.waits, stream.outstanding, 4)
    ensures proceed ==> cursorId == ReplyId(stream.env)
    ensures !proceed ==> AsyncDone(r, stream.env, statusOk, -1, stream.issued, stream.waits, stream.outstanding)
  {
    cursorId := 0;
    var pair;
    proceed, pair := IssueAndWait(stream, StartCall, START_TAG, r, 0, statusOk);
    if !proceed {
      return;
    }
    proceed, pair := IssueAndWait(stream, Scripted(DoRead), START_TAG, r, 1, statusOk);
    if !proceed {
      return;
    }
    var openMessage := DEFAULT_CURSOR.(op := OPEN, bucketName := table);
    proceed, pair := IssueAndWait(stream, Scripted(DoWrite(openMessage)), OPEN_TAG, r, 2, statusOk);
    if !proceed {
      return;
    }
    proceed, pair := IssueAndWait(stream, Scripted(DoRead), OPEN_TAG, r, 3, statusOk);
    cursorId := pair.cursorId;
  }

  /** Steps 3 and 4: seek the key, close the cursor. */
  method SeekAndClose(stream: AsyncStream, key: Bytes, cursorId: uint32, ghost r: Request, ghost statusOk: bool)
    returns (proceed: bool)
    requires Ready(r, stream.env, stream.issued, stream.waits, stream.outstanding, 4)
    requires cursorId == ReplyId(stream.env) && r.key == key && r.subkey.None?
    modifies stream
    ensures proceed ==> Ready(r, stream.env, stream.issued, stream.waits, stream.outstanding, 8)
    ensures !proceed ==> AsyncDone(r, stream.env, statusOk, -1, stream.issued, stream.waits, stream.outstanding)
  {
    var pair;
    var seekMessage := DEFAULT_CURSOR.(op := SEEK, cursor := cursorId, k := key);
    proceed, pair := IssueAndWait(stream, Scripted(DoWrite(seekMessage)), SEEK_TAG, r, 4, statusOk);
    if !proceed {
      return;
    }
    proceed, pair := IssueAndWait(stream, Scripted(DoRead), SEEK_TAG, r, 5, statusOk);
    if !proceed {
      return;
    }
    var closeMessage := DEFAULT_CURSOR.(op := CLOSE, cursor := cursorId);
    proceed, pair := IssueAndWait(stream, Scripted(DoWrite(closeMessage)), CLOSE_TAG, r, 6, statusOk);
    if !proceed {
      return;
    }
    proceed, pair := IssueAndWait(stream, Scripted(DoRead), CLOSE_TAG, r, 7, statusOk);
  }

  /** `kv_seek_async`; `statusOk` is the status it finds right after issuing Finish. */
  method KvSeekAsync(table: string, key: Bytes, env: QueueEnv, statusOk: bool)
    returns (code: int, issued: seq<Issued>, waits: seq<seq<Tag>>, outstanding: seq<Tag>)
    ensures AsyncDone(Request(table, key, None), env, statusOk, code, issued, waits, outstanding)
  {
    ghost var r := Request(table, key, None);
    var stream := new AsyncStream(env);
    var proceed, cursorId := StartAndOpen(stream, table, r, statusOk);
    if proceed {
      proceed := SeekAndClose(stream, key, cursorId, r, statusOk);
    }
    if !proceed {
      return -1, stream.issued, stream.waits, stream.outstanding;
    }

    // 5) Finish
    stream.Issue(FinishCall, FINISH_TAG);
    if !statusOk {
      return -1, stream.issued, stream.waits, stream.outstanding;
    }
    return 0, stream.issued, stream.waits, stream.outstanding;
  }

  /** With events always available, OPEN, SEEK and CLOSE are all written whatever the operations
      report; so with an OK status the exit code agrees with that of `kv_seek` on the same outcomes
      exactly when no operation of the conversation fails. */
  lemma AsyncAgreesWithBlocking(
      table: string, key: Bytes, env: QueueEnv, blockingEnv: Env,
      code: int, issued: seq<Issued>, waits: seq<seq<Tag>>, outstanding: seq<Tag>,
      blockingCode: int, log: seq<Event>, closing: seq<KvBlocking.Closing>)
    requires forall i: nat :: env(i).hasEvent
    requires forall i: nat :: blockingEnv(i) == env(i + 1).outcome
    requires AsyncDone(Request(table, key, None), env, true, code, issued, waits, outstanding)
    requires KvBlocking.SeekDone(Request(table, key, None), blockingEnv, blockingCode, log, closing)
    ensures |issued| == 9 && issued[0] == StartCall && issued[8] == FinishCall && outstanding == [FINISH_TAG]
    ensures waits == [[START_TAG], [START_TAG], [OPEN_TAG], [OPEN_TAG],
                      [SEEK_TAG], [SEEK_TAG], [CLOSE_TAG], [CLOSE_TAG]]
    ensures issued[2] == Scripted(DoWrite(Cursor(OPEN, table, 0, [], [])))
    ensures issued[4] == Scripted(DoWrite(Cursor(SEEK, "", ReplyId(env), key, [])))
    ensures issued[6] == Scripted(DoWrite(Cursor(CLOSE, "", ReplyId(env), [], [])))
    ensures code == blockingCode <==> forall i: nat | 1 <= i <= OPERATIONS :: env(i).outcome.ok
  {
    KvBlocking.SeekDoneMeans(Request(table, key, None), blockingEnv, blockingCode, log, closing);
    if code == blockingCode {
      forall i: nat | 1 <= i <= OPERATIONS
        ensures env(i).outcome.ok
      {
        assert blockingEnv(i - 1).ok;
      }
    }
  }
}
