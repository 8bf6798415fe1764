/**
 The whole `Tx` conversation as a transition system: a client that holds the seek conversation, one
 FIFO channel in each direction, and a server that sends one Pair when the transaction opens and one
 Pair for each Cursor message. The environment schedules the parties, names the cursors the server
 opens, and may break the stream at any moment; a client operation may then fail.
 */
module KvSystem {
  import opened Base
  import opened KvMessages
  import opened KvScript

  /** The stored data: what seeking a key (and subkey) in a table finds. */
  type Store = (string, Bytes, Option<Bytes>) -> (Bytes, Bytes)

  datatype State = State(
    log: seq<Event>, finished: bool,
    toServer: seq<Cursor>, toClient: seq<Pair>,
    greeted: bool, consumed: nat, sent: nat, cursors: map<uint32, string>,
    broken: bool)

  const INITIAL := State([], false, [], [], false, 0, 0, map[], false)

  datatype Step =
    | Greet(txId: uint64)          // the server sends the transaction id
    | Serve(newId: uint32)         // the server consumes a Cursor message and replies
    | ClientRead                   // the client's read returns the oldest reply
    | ClientWrite                  // the client's write is accepted
    | ClientFail                   // the client's operation fails on a broken stream
    | ClientFinish                 // the client calls Finish
    | Break                        // the stream breaks

  predicate Enabled(r: Request, s: State, step: Step) {
    match step
    case Greet(_) => !s.greeted
    case Serve(newId) =>
      s.greeted && s.toServer != [] && (s.toServer[0].op == OPEN ==> newId !in s.cursors)
    case ClientRead => !s.finished && !Complete(s.log) && NextAction(r, s.log).DoRead? && s.toClient != []
    case ClientWrite => !s.finished && !Complete(s.log) && NextAction(r, s.log).DoWrite?
    case ClientFail => !s.finished && !Complete(s.log) && s.broken
    case ClientFinish => !s.finished && Complete(s.log)
    case Break => !s.broken
  }

  /** The server's answer to `m`: the reply, and the cursors left open. */
  function Answer(store: Store, cursors: map<uint32, string>, m: Cursor, newId: uint32): (Pair, map<uint32, string>) {
    if m.op == OPEN then
      (Pair([], [], newId, 0), cursors[newId := m.bucketName])
    else if (m.op == SEEK || m.op == SEEK_BOTH) && m.cursor in cursors then
      var (k, v) := store(cursors[m.cursor], m.k, if m.op == SEEK then None else Some(m.v));
      (Pair(k, v, m.cursor, 0), cursors)
    else if m.op == CLOSE then
      (Pair([], [], m.cursor, 0), cursors - {m.cursor})
    else
      (DEFAULT_PAIR, cursors)
  }

  function Apply(r: Request, store: Store, s: State, step: Step): State
    requires Enabled(r, s, step)
  {
    match step
    case Greet(txId) => s.(greeted := true, sent := s.sent + 1, toClient := s.toClient + [Pair([], [], 0, txId)])
    case Serve(newId) =>
      var (reply, cursors) := Answer(store, s.cursors, s.toServer[0], newId);
      s.(toServer := s.toServer[1..], consumed := s.consumed + 1,
         toClient := s.toClient + [reply], sent := s.sent + 1, cursors := cursors)
    case ClientRead => s.(log := s.log + [Read(true, s.toClient[0])], toClient := s.toClient[1..])
    case ClientWrite =>
      var m := NextAction(r, s.log).msg;
      s.(log := s.log + [Write(m, true)], toServer := s.toServer + [m])
    case ClientFail => s.(log := s.log + [Perform(NextAction(r, s.log), Outcome(false, DEFAULT_PAIR))])
    case ClientFinish => s.(finished := true)
    case Break => s.(broken := true)
  }

  ghost predicate ValidRun(r: Request, store: Store, s: State, steps: seq<Step>)
    decreases |steps|
  {
    steps == [] || (Enabled(r, s, steps[0]) && ValidRun(r, store, Apply(r, store, s, steps[0]), steps[1..]))
  }

  /** The state a valid run of the system ends in. */
  ghost function Exec(r: Request, store: Store, s: State, steps: seq<Step>): State
    requires ValidRun(r, store, s, steps)
    decreases |steps|
  {
    if steps == [] then s else Exec(r, store, Apply(r, store, s, steps[0]), steps[1..])
  }

  function Successes(log: seq<Event>): nat {
    if Failed(log) then |log| - 1 else |log|
  }

  /** The pair a client must receive for its seek. */
  predicate Found(r: Request, store: Store, p: Pair) {
    (p.k, p.v) == store(r.table, r.key, r.subkey)
  }

  /** The pair that operation `i` received. */
  function Received(log: seq<Event>, i: nat): Pair {
    if i < |log| && log[i].Read? then log[i].pair else DEFAULT_PAIR
  }

  /** Counting messages: every message sent is either delivered or still in its channel. */
  ghost predicate Conserved(s: State) {
    var n := Successes(s.log);
    && |s.log| <= OPERATIONS
    && s.sent == s.consumed + (if s.greeted then 1 else 0)
    && s.consumed + |s.toServer| == n / 2
    && (n + 1) / 2 + |s.toClient| == s.sent
    && (!s.greeted ==> n == 0)
    && (s.toServer != [] ==> n % 2 == 0)
    && (Failed(s.log) ==> s.broken)
    && (s.finished ==> Complete(s.log))
  }

  /** The cursor opened for the client: known to the client, or named by the reply on its way. */
  function OpenedId(s: State): uint32 {
    if Successes(s.log) == 2 && s.toClient != [] then s.toClient[0].cursorId else Received(s.log, 2).cursorId
  }

  /** What is in the channels and in the server. */
  ghost predicate Contents(r: Request, store: Store, s: State) {
    var n := Successes(s.log);
    && (s.toServer != [] && n > 0 ==> DoWrite(s.toServer[0]) == Script(r, Received(s.log, 2).cursorId, n - 1))
    && s.cursors == (if s.consumed == 1 || s.consumed == 2 then map[OpenedId(s) := r.table] else map[])
    && (n == 4 && s.toClient != [] ==> Found(r, store, s.toClient[0]))
    && (n >= 5 ==> Found(r, store, Received(s.log, 4)))
  }

  /** An environment in which the outcomes are those recorded in `log`. */
  function EnvOf(log: seq<Event>): Env {
    (i: nat) => if i < |log| then Outcome(log[i].ok, Received(log, i)) else Outcome(false, DEFAULT_PAIR)
  }

  ghost predicate Inv(r: Request, store: Store, s: State) {
    FollowsScript(r, s.log) && Answers(EnvOf(s.log), s.log) && Conserved(s) && Contents(r, store, s)
  }

  lemma ScriptStep(r: Request, store: Store, s: State, step: Step)
    requires FollowsScript(r, s.log) && Answers(EnvOf(s.log), s.log) && Enabled(r, s, step)
    ensures FollowsScript(r, Apply(r, store, s, step).log)
    ensures Answers(EnvOf(Apply(r, store, s, step).log), Apply(r, store, s, step).log)
  {
    match step
    case ClientRead => Extend(r, s.log, Outcome(true, s.toClient[0]));
    case ClientWrite => Extend(r, s.log, Outcome(true, DEFAULT_PAIR));
    case ClientFail => Extend(r, s.log, Outcome(false, DEFAULT_PAIR));
    case _ =>
  }

  lemma ServerConserves(r: Request, store: Store, s: State, step: Step)
    requires Conserved(s) && Enabled(r, s, step) && (step.Greet? || step.Serve?)
    ensures Conserved(Apply(r, store, s, step))
  {
  }

  lemma ClientConserves(r: Request, store: Store, s: State, step: Step)
    requires Conserved(s) && Enabled(r, s, step) && (step.ClientRead? || step.ClientWrite?)
    ensures Conserved(Apply(r, store, s, step))
  {
    var n := Successes(s.log);
    assert n == |s.log| && Successes(Apply(r, store, s, step).log) == n + 1;
    if step.ClientWrite? {
      assert n % 2 == 1 && s.toServer == [];
    } else {
      assert n % 2 == 0;
    }
  }

  lemma EndingConserves(r: Request, store: Store, s: State, step: Step)
    requires Conserved(s) && Enabled(r, s, step) && (step.ClientFail? || step.ClientFinish? || step.Break?)
    ensures Conserved(Apply(r, store, s, step))
  {
    assert Successes(Apply(r, store, s, step).log) == Successes(s.log);
  }

  /** Every step of any party keeps the counts. */
  lemma ConservedStep(r: Request, store: Store, s: State, step: Step)
    requires Conserved(s) && Enabled(r, s, step)
    ensures Conserved(Apply(r, store, s, step))
  {
    if step.Greet? || step.Serve? {
      ServerConserves(r, store, s, step);
    } else if step.ClientRead? || step.ClientWrite? {
      ClientConserves(r, store, s, step);
    } else {
      EndingConserves(r, store, s, step);
    }
  }

  lemma ServeContents(r: Request, store: Store, s: State, step: Step)
    requires step.Serve? && Conserved(s) && Contents(r, store, s) && Enabled(r, s, step)
    ensures Contents(r, store, Apply(r, store, s, step))
  {
    var n := Successes(s.log);
    assert n == 2 || n == 4 || n == 6;
    assert s.toClient == [];
  }

  lemma ReadContents(r: Request, store: Store, s: State, step: Step)
    requires step.ClientRead? && Conserved(s) && Contents(r, store, s) && Enabled(r, s, step)
    ensures Contents(r, store, Apply(r, store, s, step))
  {
    assert s.toServer == [];
  }

  lemma WriteContents(r: Request, store: Store, s: State, step: Step)
    requires step.ClientWrite? && Conserved(s) && Contents(r, store, s) && Enabled(r, s, step)
    ensures Contents(r, store, Apply(r, store, s, step))
  {
    assert s.toServer == [] && s.toClient == [];
  }

  lemma OtherContents(r: Request, store: Store, s: State, step: Step)
    requires !step.Serve? && !step.ClientRead? && !step.ClientWrite?
    requires Conserved(s) && Contents(r, store, s) && Enabled(r, s, step)
    ensures Contents(r, store, Apply(r, store, s, step))
  {
  }

  lemma InvStep(r: Request, store: Store, s: State, step: Step)
    requires Inv(r, store, s) && Enabled(r, s, step)
    ensures Inv(r, store, Apply(r, store, s, step))
  {
    ScriptStep(r, store, s, step);
    ConservedStep(r, store, s, step);
    if step.Serve? {
      ServeContents(r, store, s, step);
    } else if step.ClientRead? {
      ReadContents(r, store, s, step);
    } else if step.ClientWrite? {
      WriteContents(r, store, s, step);
    } else {
      OtherContents(r, store, s, step);
    }
  }

  /** How much is left to do: operations, server messages, a break, and Finish. */
  function Rank(s: State): int {
    (OPERATIONS - |s.log|) + (4 - s.sent) + (if s.broken then 0 else 1) + (if s.finished then 0 else 1)
  }

  lemma RankStep(r: Request, store: Store, s: State, step: Step)
    requires Conserved(s) && Enabled(r, s, step)
    ensures Rank(Apply(r, store, s, step)) < Rank(s)
  {
  }

  lemma {:induction false} RunInvariant(r: Request, store: Store, s: State, steps: seq<Step>)
    requires Inv(r, store, s) && ValidRun(r, store, s, steps)
    ensures Inv(r, store, Exec(r, store, s, steps))
    ensures |steps| <= Rank(s) - Rank(Exec(r, store, s, steps))
    decreases |steps|
  {
    if steps != [] {
      InvStep(r, store, s, steps[0]);
      RankStep(r, store, s, steps[0]);
      RunInvariant(r, store, Apply(r, store, s, steps[0]), steps[1..]);
    }
  }

  /** Safety over whole runs: whatever the interleaving, the conversation follows the script, the server
      has sent one Pair on opening plus one per Cursor message consumed, at most one message is on its
      way counting both directions, and no run is longer than thirteen steps. */
  lemma ReachableStates(r: Request, store: Store, steps: seq<Step>)
    requires ValidRun(r, store, INITIAL, steps)
    ensures
      var s := Exec(r, store, INITIAL, steps);
      && FollowsScript(r, s.log)
      && (s.greeted ==> s.sent == 1 + s.consumed)
      && (!s.greeted ==> s.sent == 0 && s.consumed == 0 && Successes(s.log) == 0)
      && |s.toServer| + |s.toClient| <= 1
      && (Failed(s.log) ==> s.broken)
      && |steps| <= 13
  {
    RunInvariant(r, store, INITIAL, steps);
    assert Rank(Exec(r, store, INITIAL, steps)) >= 0;
  }

  /** A step that some party can take, other than breaking the stream, as long as Finish is to come. */
  function ReadyStep(r: Request, s: State): Step {
    if Complete(s.log) then ClientFinish
    else if NextAction(r, s.log).DoWrite? then ClientWrite
    else if s.toClient != [] then ClientRead
    else if s.toServer != [] then Serve(0)
    else Greet(0)
  }

  /** The system never gets stuck: in every reachable state before Finish some party can step without
      the stream having to break. */
  lemma AlwaysReady(r: Request, store: Store, steps: seq<Step>)
    requires ValidRun(r, store, INITIAL, steps) && !Exec(r, store, INITIAL, steps).finished
    ensures
      var s := Exec(r, store, INITIAL, steps);
      Enabled(r, s, ReadyStep(r, s)) && !ReadyStep(r, s).Break?
  {
    RunInvariant(r, store, INITIAL, steps);
    var s := Exec(r, store, INITIAL, steps);
    if !Complete(s.log) && NextAction(r, s.log).DoRead? && s.toClient == [] && s.toServer != [] {
      assert |s.log| == 2 ==> s.cursors == map[];
    }
  }

  /** Where runs end. A run that cannot be extended has finished, and its log is that of `kv_seek` in
      some environment. If the stream did not break, all seven operations succeeded; then no message is
      left undelivered, no cursor is left open, and the client got what the store holds for its key. */
  lemma MaximalRuns(r: Request, store: Store, steps: seq<Step>)
    requires ValidRun(r, store, INITIAL, steps)
    requires forall step :: Enabled(r, Exec(r, store, INITIAL, steps), step) ==> step.Break?
    ensures
      var s := Exec(r, store, INITIAL, steps);
      && s.finished && s.log == Run(r, EnvOf(s.log))
      && (!s.broken ==> AllOk(s.log))
      && (AllOk(s.log) ==>
            && s.toServer == [] && s.toClient == [] && s.cursors == map[]
            && s.consumed == 3 && s.sent == 4
            && s.log[4].Read? && (s.log[4].pair.k, s.log[4].pair.v) == store(r.table, r.key, r.subkey))
  {
    RunInvariant(r, store, INITIAL, steps);
    var s := Exec(r, store, INITIAL, steps);
    RunIsTheOnlyScriptedLog(r, EnvOf(s.log), s.log);
    if !s.finished {
      AlwaysReady(r, store, steps);
    } else if AllOk(s.log) {
      assert Matches(Script(r, OpenId(s.log), 4), s.log[4]);
    }
  }
}
