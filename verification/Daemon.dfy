/** The life of the RPC daemon: settings, secret, protocol checks, start, termination signal, stop, join. */
module Daemon {
  import opened Base

  datatype Settings = Settings(
    datadir: Option<string>, httpPort: string, enginePort: string, apiSpec: string, target: string, numContexts: uint32)

  datatype ProtocolCheck = ProtocolCheck(compatible: bool, result: string)

  /** What the daemon finds outside: the filesystem, the secret file, the core services' versions, whether
      its k-th action on services, stream and pool throws, and whether a termination signal arrives. */
  datatype Outside = Outside(
    datadirExists: bool,
    secret: Option<string>,
    kv: ProtocolCheck, ethbackend: ProtocolCheck, mining: ProtocolCheck, txpool: ProtocolCheck,
    throws: nat -> bool,
    signalled: bool)

  predicate HasSeparator(address: string) {
    ':' in address
  }

  /** Daemon::validate_settings */
  function ValidateSettings(s: Settings, datadirExists: bool): (valid: bool)
    ensures valid ==> s.apiSpec != "" && (s.datadir.Some? || HasSeparator(s.target))
    ensures valid <==>
      && (s.datadir.Some? ==> datadirExists)
      && (forall address | address in [s.httpPort, s.enginePort, s.target] :: address == "" || HasSeparator(address))
      && (s.datadir.Some? || s.target != "")
      && s.apiSpec != ""
  {
    assert forall address :: address in [s.httpPort, s.enginePort, s.target]
                        <==> address == s.httpPort || address == s.enginePort || address == s.target;
    if s.datadir.Some? && !datadirExists then false
    else if s.httpPort != "" && !HasSeparator(s.httpPort) then false
    else if s.enginePort != "" && !HasSeparator(s.enginePort) then false
    else if s.target != "" && !HasSeparator(s.target) then false
    else if s.datadir.None? && s.target == "" then false
    else s.apiSpec != ""
  }

  /** Daemon::run_checklist: with a local database nothing is checked. */
  function RunChecklist(s: Settings, o: Outside): seq<ProtocolCheck> {
    if s.datadir.None? then [o.kv, o.ethbackend, o.mining, o.txpool] else []
  }

  /** DaemonChecklist::success_or_throw: throws the result of the first incompatible check, if any. */
  method SuccessOrThrow(checks: seq<ProtocolCheck>) returns (thrown: Option<string>)
    ensures thrown.None? <==> forall c | c in checks :: c.compatible
    ensures thrown.Some? ==> exists i | 0 <= i < |checks| ::
              checks[i] == ProtocolCheck(false, thrown.value) && forall j | 0 <= j < i :: checks[j].compatible
  {
    for i := 0 to |checks|
      invariant forall j | 0 <= j < i :: checks[j].compatible
    {
      if !checks[i].compatible {
        return Some(checks[i].result);
      }
    }
    return None;
  }

  // ---------------------------------------------------------------- servers and contexts

  /** Round-robin choice among `size` execution contexts. */
  class ContextPool {
    const size: nat
    var nextIndex: nat

    constructor (size: nat)
      requires size != 0
      ensures this.size == size && nextIndex == 0
    {
      this.size, nextIndex := size, 0;
    }

    method NextContext() returns (context: nat)
      requires nextIndex < size
      modifies this
      ensures context == old(nextIndex)
      ensures nextIndex == if old(nextIndex) + 1 < size then old(nextIndex) + 1 else 0
    {
      context := nextIndex;
      nextIndex := (nextIndex + 1) % size;
    }
  }

  datatype Server = Server(port: string, apiSpec: string, context: nat, secret: Option<string>)

  const DEFAULT_ETH2_API_SPEC := "engine,eth"

  /** The pair of servers hosted by a context. */
  function EthServer(s: Settings, context: nat): Server {
    Server(s.httpPort, s.apiSpec, context, None)
  }

  function EngineServer(s: Settings, secret: string, context: nat): Server {
    Server(s.enginePort, DEFAULT_ETH2_API_SPEC, context, Some(secret))
  }

  /** The context the i-th round of the loop uses, from position `start` on. */
  function ContextAt(start: nat, n: nat, i: nat): nat {
    if start + i < n then start + i else start + i - n
  }

  /** The loop of Daemon::start that spreads servers over contexts. */
  method CreateServices(s: Settings, secret: string, pool: ContextPool) returns (services: seq<Server>)
    requires s.numContexts == pool.size && s.numContexts <= 0x7fff_ffff && pool.nextIndex < pool.size
    modifies pool
    ensures MadeInRounds(s, secret, services, old(pool.nextIndex))
    ensures HostsOnePairEach(s, secret, services)
    ensures pool.nextIndex == old(pool.nextIndex)
  {
    ghost var start := pool.nextIndex;
    services := [];
    var i := 0;
    while i < s.numContexts
      invariant i <= s.numContexts && |services| == 2 * i
      invariant pool.nextIndex == ContextAt(start, pool.size, i)
      invariant forall j | 0 <= j < 2 * i ::
                  services[j] == var context := ContextAt(start, s.numContexts, j / 2);
                                 if j % 2 == 0 then EthServer(s, context) else EngineServer(s, secret, context)
    {
      var context := pool.NextContext();
      services := services + [EthServer(s, context)];
      services := services + [EngineServer(s, secret, context)];
      i := i + 1;
    }
    RoundsHostOnePairEach(s, secret, services, start);
  }

  /** Whatever the position the round robin starts from, each context is used in exactly one round, so
      hosts exactly one eth server and one engine server. */
  lemma EachContextOnce(start: nat, n: nat, context: nat)
    requires start < n && context < n
    ensures exists i :: 0 <= i < n && ContextAt(start, n, i) == context
                        && forall j | 0 <= j < n && j != i :: ContextAt(start, n, j) != context
  {
    var i := if context >= start then context - start else context + n - start;
    assert ContextAt(start, n, i) == context;
  }

  /** Each context hosts exactly one eth server and exactly one engine server, and there are no others. */
  ghost predicate HostsOnePairEach(s: Settings, secret: string, services: seq<Server>) {
    && |services| == 2 * s.numContexts
    && (forall server | server in services ::
          server.context < s.numContexts
          && (server == EthServer(s, server.context) || server == EngineServer(s, secret, server.context)))
    && forall context: nat | context < s.numContexts :: HostsOnePair(s, secret, services, context)
  }

  ghost predicate HostsOnePair(s: Settings, secret: string, services: seq<Server>, context: nat) {
    multiset(services)[EthServer(s, context)] == 1 && multiset(services)[EngineServer(s, secret, context)] == 1
  }

  lemma OccursOnce<T>(s: seq<T>, x: T, i: nat)
    requires i < |s| && s[i] == x && forall j | 0 <= j < |s| && j != i :: s[j] != x
    ensures multiset(s)[x] == 1
  {
    assert s == s[..i] + [x] + s[i + 1..];
    assert x !in s[..i] && x !in s[i + 1..];
  }

  /** The servers of round `i`, the rounds starting from context `start`. */
  ghost predicate MadeInRounds(s: Settings, secret: string, services: seq<Server>, start: nat) {
    && |services| == 2 * s.numContexts
    && forall j | 0 <= j < |services| ::
         services[j] == var context := ContextAt(start, s.numContexts, j / 2);
                        if j % 2 == 0 then EthServer(s, context) else EngineServer(s, secret, context)
  }

  lemma RoundsHostOnePair(s: Settings, secret: string, services: seq<Server>, start: nat, context: nat)
    requires MadeInRounds(s, secret, services, start) && start < s.numContexts && context < s.numContexts
    ensures HostsOnePair(s, secret, services, context)
  {
    EachContextOnce(start, s.numContexts, context);
    var i :| 0 <= i < s.numContexts && ContextAt(start, s.numContexts, i) == context
             && forall j | 0 <= j < s.numContexts && j != i :: ContextAt(start, s.numContexts, j) != context;
    forall j | 0 <= j < |services|
      ensures j != 2 * i ==> services[j] != EthServer(s, context)
      ensures j != 2 * i + 1 ==> services[j] != EngineServer(s, secret, context)
    {
      assert 0 <= j / 2 < s.numContexts;
    }
    OccursOnce(services, EthServer(s, context), 2 * i);
    OccursOnce(services, EngineServer(s, secret, context), 2 * i + 1);
  }

  /** Whatever the position the round robin starts from, one round per context gives each its pair. */
  lemma RoundsHostOnePairEach(s: Settings, secret: string, services: seq<Server>, start: nat)
    requires MadeInRounds(s, secret, services, start) && start < s.numContexts
    ensures HostsOnePairEach(s, secret, services)
  {
    forall context: nat | context < s.numContexts
      ensures HostsOnePair(s, secret, services, context)
    {
      RoundsHostOnePair(s, secret, services, start, context);
    }
    forall j | 0 <= j < |services|
      ensures services[j].context < s.numContexts
    {
      assert 0 <= j / 2 < s.numContexts;
    }
  }

  // ---------------------------------------------------------------- lifecycle

  datatype Action =
    | ServiceStart(i: nat) | StreamOpen | PoolStart
    | StreamClose | PoolStop | ServiceStop(i: nat) | PoolJoin

  predicate IsStopAction(a: Action) {
    a.StreamClose? || a.PoolStop? || a.ServiceStop? || a.PoolJoin?
  }

  function ServiceStarts(n: nat): seq<Action> {
    seq(n, (i: nat) => ServiceStart(i))
  }

  function ServiceStops(n: nat): seq<Action> {
    seq(n, (i: nat) => ServiceStop(i))
  }

  /** Everything Daemon::start does with `n` services, in order. */
  function StartLog(n: nat): seq<Action> {
    ServiceStarts(n) + [StreamOpen, PoolStart]
  }

  /** Everything a whole life does: start, stop on a signal, join. */
  function FullLog(n: nat): seq<Action> {
    StartLog(n) + [StreamClose, PoolStop] + ServiceStops(n) + [PoolJoin]
  }

  /** The daemon may start: settings and secret are good, and every check that was made is compatible. */
  predicate Admitted(s: Settings, o: Outside) {
    && ValidateSettings(s, o.datadirExists) && o.secret.Some? && s.numContexts != 0
    && forall c | c in RunChecklist(s, o) :: c.compatible
  }

  class RpcDaemon {
    const settings: Settings
    const secret: string
    const throws: nat -> bool
    const pool: ContextPool
    var services: seq<Server>
    var log: seq<Action>

    /** The constructor takes one context for the state-changes stream. */
    constructor (settings: Settings, secret: string, throws: nat -> bool)
      requires settings.numContexts != 0
      ensures this.settings == settings && this.secret == secret && this.throws == throws && services == [] && log == []
      ensures fresh(pool) && pool.size == settings.numContexts && pool.nextIndex < pool.size
    {
      this.settings, this.secret, this.throws, services, log := settings, secret, throws, [], [];
      pool := new ContextPool(settings.numContexts);
      new;
      var context := pool.NextContext();
    }

    /** Performs an action unless it throws. */
    method Act(action: Action) returns (ok: bool)
      modifies this`log
      ensures ok <==> !throws(|old(log)|)
      ensures log == if ok then old(log) + [action] else old(log)
    {
      ok := !throws(|log|);
      if ok {
        log := log + [action];
      }
    }

    /** Returns false when it throws. */
    method Start() returns (ok: bool)
      requires log == [] && settings.numContexts == pool.size <= 0x7fff_ffff && pool.nextIndex < pool.size
      modifies this, pool
      ensures HostsOnePairEach(settings, secret, services)
      ensures MadeInRounds(settings, secret, services, old(pool.nextIndex))
      ensures forall i | 0 <= i < settings.numContexts ::
                && services[2 * i].port == settings.httpPort && services[2 * i].apiSpec == settings.apiSpec
                && services[2 * i].secret.None?
                && services[2 * i + 1].port == settings.enginePort && services[2 * i + 1].apiSpec == "engine,eth"
                && services[2 * i + 1].secret == Some(secret)
                && services[2 * i].context == services[2 * i + 1].context
      ensures ok ==>
                && |log| == |services| + 2
                && (forall i | 0 <= i < |services| :: log[i] == ServiceStart(i))
                && log[|services|] == StreamOpen && log[|services| + 1] == PoolStart
      ensures log <= StartLog(|services|)
      ensures ok ==> log == StartLog(|services|)
      ensures !ok ==> |log| < |StartLog(|services|)| && throws(|log|)
    {
      services := CreateServices(settings, secret, pool);
      ghost var made := services;
      for i := 0 to |services|
        invariant services == made && log == ServiceStarts(i)
      {
        ok := Act(ServiceStart(i));
        if !ok {
          assert log == StartLog(|services|)[..i];
          return;
        }
      }
      ok := Act(StreamOpen);
      if ok {
        ok := Act(PoolStart);
      }
    }

    /** Returns false when it throws. */
    method Stop() returns (ok: bool)
      requires log == StartLog(|services|)
      modifies this`log
      ensures log <= FullLog(|services|)
      ensures ok ==> log + [PoolJoin] == FullLog(|services|)
      ensures !ok ==> |log| < |FullLog(|services|)| && throws(|log|)
    {
      ok := Act(StreamClose);
      if !ok {
        return;
      }
      ok := Act(PoolStop);
      if !ok {
        return;
      }
      for i := 0 to |services|
        invariant log == StartLog(|services|) + [StreamClose, PoolStop] + ServiceStops(i)
      {
        ok := Act(ServiceStop(i));
        if !ok {
          assert log == FullLog(|services|)[..|log|];
          return;
        }
      }
      ok := true;
    }
  }

  /** Daemon::run. The code is None while it waits for a signal. What it does is a prefix of one fixed
      life, cut where something threw or where no signal came; it does nothing at all unless admitted. */
  method Run(s: Settings, o: Outside) returns (code: Option<int>, log: seq<Action>)
    requires s.numContexts <= 0x7fff_ffff
    ensures !Admitted(s, o) ==> log == []
    ensures log <= FullLog(2 * s.numContexts)
    ensures Admitted(s, o) && |log| < |FullLog(2 * s.numContexts)| ==>
              o.throws(|log|) || (!o.signalled && log == StartLog(2 * s.numContexts))
    ensures code.None? ==> Admitted(s, o) && !o.signalled && log == StartLog(2 * s.numContexts)
    ensures code == Some(-1) <==> !ValidateSettings(s, o.datadirExists) || o.secret.None?
    ensures log != [] ==> ValidateSettings(s, o.datadirExists) && o.secret.Some? && s.numContexts != 0
    ensures log != [] && s.datadir.None? ==>
              o.kv.compatible && o.ethbackend.compatible && o.mining.compatible && o.txpool.compatible
    ensures
      && ValidateSettings(s, o.datadirExists) && o.secret.Some? && s.numContexts != 0 && !o.throws(0)
      && (s.datadir.Some? || (o.kv.compatible && o.ethbackend.compatible && o.mining.compatible && o.txpool.compatible))
      ==> log != []
  {
    if !ValidateSettings(s, o.datadirExists) {
      return Some(-1), [];
    }
    if o.secret.None? {
      return Some(-1), [];
    }
    if s.numContexts == 0 {
      return Some(0), []; // the context pool refuses to be empty
    }
    var daemon := new RpcDaemon(s, o.secret.value, o.throws);
    var thrown := SuccessOrThrow(RunChecklist(s, o));
    if thrown.Some? {
      return Some(0), [];
    }
    var ok := daemon.Start();
    if !ok {
      assert StartLog(2 * s.numContexts) <= FullLog(2 * s.numContexts);
      return Some(0), daemon.log;
    }
    // signal_context.run(): the handler runs here, after start has returned, and only once
    if !o.signalled {
      return None, daemon.log;
    }
    ok := daemon.Stop();
    if ok {
      ok := daemon.Act(PoolJoin);
    }
    return Some(0), daemon.log;
  }

  /** In every prefix of that life: stopping begins only after starting is complete, everything is started
      and stopped at most once and in the prescribed order, and only started services are stopped. */
  lemma LifeIsOrderly(n: nat, log: seq<Action>)
    requires log <= FullLog(n)
    ensures forall i, j | 0 <= i < j < |log| :: log[i] != log[j]
    ensures (exists a :: a in log && IsStopAction(a)) ==> StartLog(n) <= log && log[n + 2] == StreamClose
    ensures forall i | 0 <= i < n && ServiceStop(i) in log :: ServiceStart(i) in log
    ensures PoolJoin in log ==> log == FullLog(n) && forall i | 0 <= i < n :: ServiceStop(i) in log
    ensures forall k | 0 <= k < |log| ::
              log[k] == if k < n then ServiceStart(k)
                        else if k == n then StreamOpen
                        else if k == n + 1 then PoolStart
                        else if k == n + 2 then StreamClose
                        else if k == n + 3 then PoolStop
                        else if k < 2 * n + 4 then ServiceStop(k - n - 4)
                        else PoolJoin
  {
    var life := FullLog(n);
    forall k | 0 <= k < |log|
      ensures log[k] == life[k]
      ensures k < n ==> log[k] == ServiceStart(k)
      ensures k == n ==> log[k] == StreamOpen
      ensures k == n + 1 ==> log[k] == PoolStart
      ensures k == n + 2 ==> log[k] == StreamClose
      ensures k == n + 3 ==> log[k] == PoolStop
      ensures n + 4 <= k < 2 * n + 4 ==> log[k] == ServiceStop(k - n - 4)
      ensures k == 2 * n + 4 ==> log[k] == PoolJoin
    {
    }
    if PoolJoin in log {
      assert log == life;
      forall i | 0 <= i < n
        ensures ServiceStop(i) in log
      {
        assert log[n + 4 + i] == ServiceStop(i);
      }
    }
    forall i | 0 <= i < n && ServiceStop(i) in log
      ensures ServiceStart(i) in log
    {
      assert log[i] == ServiceStart(i);
    }
  }
}
