/**
 The seek conversation every `kv_seek*` client is meant to hold on a `Tx` stream, stated once and
 independently of any client: a fixed script of seven operations, and the run of that script
 against an environment that decides the outcome of every operation.
 */
module KvScript {
  import opened Base
  import opened KvMessages

  /** One seek. With a subkey the SEEK operation becomes SEEK_BOTH. */
  datatype Request = Request(table: string, key: Bytes, subkey: Option<Bytes>)

  /** What the environment decides about one stream operation. */
  datatype Outcome = Outcome(ok: bool, pair: Pair)

  /** The environment: the outcome of the i-th operation of the run. Clients are deterministic, so
      quantifying over all of these covers environments that react to what the client sent. */
  type Env = nat -> Outcome

  datatype Action = DoRead | DoWrite(msg: Cursor)

  /** A completed stream operation, with what it reported. */
  datatype Event = Read(ok: bool, pair: Pair) | Write(msg: Cursor, ok: bool)

  const OPERATIONS := 7

  function OpenMessage(r: Request): Cursor {
    Cursor(OPEN, r.table, 0, [], [])
  }

  function SeekMessage(r: Request, id: uint32): Cursor {
    match r.subkey
    case None => Cursor(SEEK, "", id, r.key, [])
    case Some(subkey) => Cursor(SEEK_BOTH, "", id, r.key, subkey)
  }

  function CloseMessage(id: uint32): Cursor {
    Cursor(CLOSE, "", id, [], [])
  }

  /** Operation `i` of the conversation, once the server has named the opened cursor `id`: read the
      transaction id, then write and read in turn for OPEN, for SEEK and for CLOSE. */
  function Script(r: Request, id: uint32, i: nat): Action {
    if i == 1 then DoWrite(OpenMessage(r))
    else if i == 3 then DoWrite(SeekMessage(r, id))
    else if i == 5 then DoWrite(CloseMessage(id))
    else DoRead
  }

  /** The cursor id of the reply to OPEN, the third operation of the conversation. */
  function OpenId(log: seq<Event>): uint32 {
    if |log| > 2 && log[2].Read? then log[2].pair.cursorId else 0
  }

  predicate Matches(a: Action, e: Event) {
    match a
    case DoRead => e.Read?
    case DoWrite(m) => e.Write? && e.msg == m
  }

  /** `log` is a prefix of the script in which only the last operation may have failed. */
  ghost predicate FollowsScript(r: Request, log: seq<Event>) {
    && |log| <= OPERATIONS
    && (forall i | 0 <= i < |log| :: Matches(Script(r, OpenId(log), i), log[i]))
    && (forall i | 0 <= i < |log| - 1 :: log[i].ok)
  }

  predicate Failed(log: seq<Event>) {
    log != [] && !log[|log| - 1].ok
  }

  /** The conversation is over: all operations done, or the last one failed. */
  predicate Complete(log: seq<Event>) {
    |log| >= OPERATIONS || Failed(log)
  }

  predicate AllOk(log: seq<Event>) {
    |log| == OPERATIONS && !Failed(log)
  }

  /** Every outcome recorded in `log` is the one the environment chose. */
  ghost predicate Answers(env: Env, log: seq<Event>) {
    forall i | 0 <= i < |log| ::
      && log[i].ok == env(i).ok
      && (log[i].Read? ==> log[i].pair == if env(i).ok then env(i).pair else DEFAULT_PAIR)
  }

  function Perform(a: Action, o: Outcome): Event {
    match a
    case DoRead => Read(o.ok, if o.ok then o.pair else DEFAULT_PAIR)
    case DoWrite(m) => Write(m, o.ok)
  }

  /** The next scripted operation after `log`. */
  function NextAction(r: Request, log: seq<Event>): Action
    requires |log| < OPERATIONS
  {
    Script(r, OpenId(log), |log|)
  }

  /** The first `n` operations of the conversation, stopping at the first failure. */
  function RunN(r: Request, env: Env, n: nat): seq<Event> {
    if n == 0 then [] else
      var log := RunN(r, env, n - 1);
      if Complete(log) then log else log + [Perform(NextAction(r, log), env(|log|))]
  }

  function Run(r: Request, env: Env): seq<Event> {
    RunN(r, env, OPERATIONS)
  }

  lemma {:induction false} RunNFollowsScript(r: Request, env: Env, n: nat)
    ensures FollowsScript(r, RunN(r, env, n))
    ensures Answers(env, RunN(r, env, n))
    ensures |RunN(r, env, n)| <= n
    ensures |RunN(r, env, n)| == n || Complete(RunN(r, env, n))
  {
    if n != 0 {
      RunNFollowsScript(r, env, n - 1);
      var log := RunN(r, env, n - 1);
      if !Complete(log) {
        Extend(r, log, env(|log|));
      }
    }
  }

  /** Cutting a run short gives a prefix of the run; a complete one never grows. */
  lemma {:induction false} RunNIsPrefix(r: Request, env: Env, n: nat, m: nat)
    requires n <= m
    ensures RunN(r, env, n) <= RunN(r, env, m)
    ensures Complete(RunN(r, env, n)) ==> RunN(r, env, m) == RunN(r, env, n)
    decreases m - n
  {
    if n < m {
      RunNIsPrefix(r, env, n + 1, m);
    }
  }

  /** The script leaves no choice: a log that follows it, records the environment's answers and is
      complete is the run, so `Run` is what those three properties mean. */
  lemma {:induction false} RunIsTheOnlyScriptedLog(r: Request, env: Env, log: seq<Event>)
    ensures FollowsScript(r, log) && Answers(env, log) && Complete(log) <==> log == Run(r, env)
  {
    if FollowsScript(r, log) && Answers(env, log) && Complete(log) {
      ScriptedPrefixIsRunN(r, env, log, |log|);
      assert log[..|log|] == log;
      RunNIsPrefix(r, env, |log|, OPERATIONS);
    }
    RunNFollowsScript(r, env, OPERATIONS);
  }

  lemma {:induction false} ScriptedPrefixIsRunN(r: Request, env: Env, log: seq<Event>, n: nat)
    requires FollowsScript(r, log) && Answers(env, log) && n <= |log|
    ensures log[..n] == RunN(r, env, n)
  {
    if n != 0 {
      ScriptedPrefixIsRunN(r, env, log, n - 1);
      var before := log[..n - 1];
      assert !Complete(before);
      assert Matches(Script(r, OpenId(log), n - 1), log[n - 1]);
      assert NextAction(r, before) == Script(r, OpenId(log), n - 1);
      assert log[..n] == before + [log[n - 1]];
    }
  }

  /** A scripted log grown by the next scripted operation is scripted, whatever that operation reports. */
  lemma Extend(r: Request, log: seq<Event>, o: Outcome)
    requires FollowsScript(r, log) && !Complete(log)
    ensures FollowsScript(r, log + [Perform(NextAction(r, log), o)])
  {
    var log' := log + [Perform(NextAction(r, log), o)];
    forall i | 0 <= i < |log'|
      ensures Matches(Script(r, OpenId(log'), i), log'[i])
    {
      if i < |log| {
        assert Matches(Script(r, OpenId(log), i), log[i]);
      }
    }
  }

  /** A run succeeds exactly when the environment lets all seven operations succeed. */
  lemma RunSucceedsIff(r: Request, env: Env)
    ensures AllOk(Run(r, env)) <==> forall i: nat | i < OPERATIONS :: env(i).ok
  {
    var log := Run(r, env);
    RunNFollowsScript(r, env, OPERATIONS);
    if Failed(log) {
      assert !env(|log| - 1).ok;
    } else {
      forall i: nat | i < OPERATIONS
        ensures env(i).ok
      {
        assert log[i].ok;
      }
    }
  }

  /** SEEK and CLOSE carry the cursor id of this stream's own OPEN reply, and only OPEN names a table. */
  lemma WritesCarryTheOpenedCursor(r: Request, env: Env, i: nat)
    requires i < |Run(r, env)| && Run(r, env)[i].Write?
    ensures
      var log := Run(r, env);
      && (i == 1 || i == 3 || i == 5)
      && (log[i].msg.op == OPEN <==> i == 1)
      && (i != 1 ==>
            && log[2].Read? && log[2].ok
            && log[i].msg.cursor == log[2].pair.cursorId == env(2).pair.cursorId
            && log[i].msg.bucketName == "")
      && (i == 1 ==> log[i].msg.bucketName == r.table)
  {
    var log := Run(r, env);
    RunNFollowsScript(r, env, OPERATIONS);
    assert Matches(Script(r, OpenId(log), i), log[i]);
    if i > 2 {
      assert Matches(Script(r, OpenId(log), 2), log[2]);
    }
  }

  /** Turns the events of a SEEK conversation into those of the SEEK_BOTH one with that subkey. */
  function WithSubkey(e: Event, subkey: Bytes): Event {
    if e.Write? && e.msg.op == SEEK then e.(msg := e.msg.(op := SEEK_BOTH, v := subkey)) else e
  }

  function AllWithSubkey(log: seq<Event>, subkey: Bytes): (r: seq<Event>)
    ensures |r| == |log| && forall i | 0 <= i < |log| :: r[i] == WithSubkey(log[i], subkey)
  {
    seq(|log|, i requires 0 <= i < |log| => WithSubkey(log[i], subkey))
  }

  lemma SubkeyFollowsScript(table: string, key: Bytes, subkey: Bytes, log: seq<Event>)
    requires FollowsScript(Request(table, key, None), log)
    ensures FollowsScript(Request(table, key, Some(subkey)), AllWithSubkey(log, subkey))
  {
    var plain := Request(table, key, None);
    var both := Request(table, key, Some(subkey));
    var log' := AllWithSubkey(log, subkey);
    var id := OpenId(log);
    assert OpenId(log') == id;
    forall i | 0 <= i < |log'|
      ensures Matches(Script(both, id, i), log'[i])
    {
      assert Matches(Script(plain, id, i), log[i]);
    }
  }

  /** `kv_seek_both` is `kv_seek` with SEEK turned into SEEK_BOTH and a subkey, on every stream. */
  lemma SeekBothIsSeekWithSubkey(table: string, key: Bytes, subkey: Bytes, env: Env)
    ensures Run(Request(table, key, Some(subkey)), env)
         == AllWithSubkey(Run(Request(table, key, None), env), subkey)
  {
    var log := Run(Request(table, key, None), env);
    RunIsTheOnlyScriptedLog(Request(table, key, None), env, log);
    SubkeyFollowsScript(table, key, subkey, log);
    RunIsTheOnlyScriptedLog(Request(table, key, Some(subkey)), env, AllWithSubkey(log, subkey));
  }
}
