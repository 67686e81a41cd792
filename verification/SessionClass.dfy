/** The session manager's central object: module list, start with rollback, shutdown, and the environment. */
module SessionClass {
  import opened Traces
  import opened Registry
  import opened SchedulerSpec
  import opened EnvironmentSpec

  class Session {
    const registry: PluginRegistry
    // The order in which the registry's hash iterates once discovery is over
    const order: seq<string>
    var modules: ModulesMap
    var loadedModules: seq<Instance>
    var disabledModules: seq<string>
    var systemdEnabled: bool
    var processEnv: Vars

    // What modules, systemd and the message bus have seen
    ghost var started: seq<Instance>
    ghost var stopped: seq<Instance>
    ghost var systemdEnv: Vars
    ghost var activationEnv: Vars
    ghost var units: seq<string>

    ghost function State(): Trace
      reads this`loadedModules, this`started, this`stopped
    {
      Trace(loadedModules, started, stopped)
    }

    ghost function Environment(): Env
      reads this`processEnv, this`systemdEnv, this`activationEnv, this`systemdEnabled
    {
      Env(processEnv, systemdEnv, activationEnv, systemdEnabled)
    }

    constructor (registry: PluginRegistry, order: seq<string>, processEnv: Vars,
                 ghost systemdEnv: Vars, ghost activationEnv: Vars)
      ensures this.registry == registry && this.order == order && modules == map[] && disabledModules == []
      ensures State() == Trace([], [], []) && units == []
      ensures Environment() == Env(processEnv, systemdEnv, activationEnv, false)
    {
      this.registry, this.order, modules, loadedModules, disabledModules := registry, order, map[], [], [];
      this.processEnv, systemdEnabled, started, stopped := processEnv, false, [], [];
      this.systemdEnv, this.activationEnv, units := systemdEnv, activationEnv, [];
    }

    method SetSystemdEnabled(value: bool)
      modifies this`systemdEnabled
      ensures systemdEnabled == (old(systemdEnabled) || value)
    {
      if systemdEnabled && !value {
        return;
      }
      systemdEnabled := value;
    }

    method DisableModule(name: string)
      modifies this`disabledModules
      ensures disabledModules == old(disabledModules) + [name]
    {
      disabledModules := disabledModules + [name];
    }

    method LoadPlugins(staticPlugins: seq<Plugin>, external: seq<Plugin>)
      modifies this`modules, registry
      ensures registry.plugins
              == Registered(registry.iid, registry.kind, old(registry.plugins), staticPlugins + external)
      ensures forall p: Phase :: ListOf(modules, p) == ListOf(old(modules), p) + OfPhase(order, registry.plugins, p)
    {
      registry.Discover(staticPlugins, external);
      GroupByPhase();
    }

    /** The second half of the above: add the modules to the lists of their phases. */
    method GroupByPhase()
      modifies this`modules
      ensures forall p: Phase :: ListOf(modules, p) == ListOf(old(modules), p) + OfPhase(order, registry.plugins, p)
    {
      for n := 0 to |order|
        invariant forall p: Phase ::
          ListOf(modules, p) == ListOf(old(modules), p) + OfPhase(order[..n], registry.plugins, p)
      {
        assert order[..n + 1][..n] == order[..n];
        if order[n] !in registry.plugins {
          continue;
        }
        var instance := registry.plugins[order[n]];
        if !IsSessionModule(instance) {
          continue;
        }
        modules := modules[instance.phase := ListOf(modules, instance.phase) + [instance]];
      }
      assert order[..|order|] == order;
    }

    method ModuleNames() returns (list: seq<string>)
      ensures list == NamesOf(order, registry.plugins, Schedule(modules))
    {
      list := [];
      ghost var all, seen := Schedule(modules), [];
      for p := 0 to 5
        invariant all == seen + ScheduleFrom(modules, p)
        invariant list == NamesOf(order, registry.plugins, seen)
      {
        var modulesList := ListOf(modules, p);
        ghost var rest := ScheduleFrom(modules, p + 1);
        PhaseBounds(modules, p);
        for i := 0 to |modulesList|
          invariant all == seen + (modulesList[i..] + rest)
          invariant list == NamesOf(order, registry.plugins, seen)
        {
          Advance(all, seen, modulesList, i, rest);
          NamesGrow(order, registry.plugins, seen, modulesList[i]);
          list := list + [NameIn(order, registry.plugins, modulesList[i])];
          seen := seen + [modulesList[i]];
        }
      }
    }

    /** The modules that start does not skip, in schedule order. */
    ghost function Run(): seq<Instance>
      reads this`modules, this`disabledModules, registry`plugins
    {
      EnabledModules(order, registry.plugins, disabledModules, Schedule(modules))
    }

    /** The n-th module started makes the requests of requests(n) and then returns outcome(n); busOk and
        systemdOk are the outcomes of the first upload, and loads that of loading the systemd target. */
    method Start(outcome: nat -> bool, requests: nat -> seq<SetRequest>, busOk: bool, systemdOk: bool, loads: bool)
      returns (ok: bool, ghost calls: nat)
      modifies this`loadedModules, this`started, this`stopped
      modifies this`processEnv, this`systemdEnv, this`activationEnv, this`units
      ensures State() == StartAll(old(State()), Run(), outcome)
      ensures ok == (Successes(outcome, |Run()|) == |Run()|)
      ensures Requested(old(|started|), Upload(old(Environment()), busOk, systemdOk), requests, calls)
      ensures units == if systemdEnabled && loads then old(units) + ["liri-session.target"] else old(units)
    {
      UploadEnvironment(busOk, systemdOk);
      StartTarget(loads);
      ok, calls := RunModules(outcome, requests);
    }

    method StartTarget(loads: bool)
      modifies this`units
      ensures units == if systemdEnabled && loads then old(units) + ["liri-session.target"] else old(units)
    {
      if systemdEnabled {
        if loads {
          units := units + ["liri-session.target"];
        }
      }
    }

    /** Runs all modules of each startup phase. */
    method RunModules(outcome: nat -> bool, requests: nat -> seq<SetRequest>) returns (ok: bool, ghost calls: nat)
      modifies this`loadedModules, this`started, this`stopped
      modifies this`processEnv, this`systemdEnv, this`activationEnv
      ensures State() == StartAll(old(State()), Run(), outcome)
      ensures ok == (Successes(outcome, |Run()|) == |Run()|)
      ensures Requested(old(|started|), old(Environment()), requests, calls)
    {
      WalkIsStartAll(State(), order, registry.plugins, disabledModules, Schedule(modules), outcome);
      ok, calls := WalkModules(outcome, requests);
    }

    /** The nested loop, step by step. */
    method WalkModules(outcome: nat -> bool, requests: nat -> seq<SetRequest>) returns (ok: bool, ghost calls: nat)
      modifies this`loadedModules, this`started, this`stopped
      modifies this`processEnv, this`systemdEnv, this`activationEnv
      ensures (State(), ok) ==
              Walk(old(State()), order, registry.plugins, disabledModules, Schedule(modules), outcome, 0)
      ensures Requested(old(|started|), old(Environment()), requests, calls)
    {
      ghost var result := Walk(State(), order, registry.plugins, disabledModules, Schedule(modules), outcome, 0);
      var n := 0;
      for p := 0 to 5
        invariant result == Walk(State(), order, registry.plugins, disabledModules, ScheduleFrom(modules, p),
                                 outcome, n)
        invariant Requested(old(|started|), old(Environment()), requests, n)
      {
        ghost var rest := ScheduleFrom(modules, p + 1);
        ok, n := RunPhase(ListOf(modules, p), rest, outcome, requests, n, old(|started|), old(Environment()));
        if !ok {
          Shutdown();
          return false, n;
        }
      }
      return true, n;
    }

    /** The inner loop, up to the rollback of a failed start: the modules of one phase, when n start calls have
        been made; rest are the modules of the later phases. */
    method RunPhase(list: seq<Instance>, ghost rest: seq<Instance>, outcome: nat -> bool,
                    requests: nat -> seq<SetRequest>, n: nat, ghost before: nat, ghost e: Env)
      returns (ok: bool, calls: nat)
      requires Requested(before, e, requests, n)
      modifies this`loadedModules, this`started
      modifies this`processEnv, this`systemdEnv, this`activationEnv
      ensures ok ==> Walk(old(State()), order, registry.plugins, disabledModules, list + rest, outcome, n)
                     == Walk(State(), order, registry.plugins, disabledModules, rest, outcome, calls)
      ensures !ok ==> Walk(old(State()), order, registry.plugins, disabledModules, list + rest, outcome, n)
                      == (ShutdownAll(State()), false)
      ensures Requested(before, e, requests, calls)
    {
      ghost var result := Walk(State(), order, registry.plugins, disabledModules, list + rest, outcome, n);
      calls := n;
      for i := 0 to |list|
        invariant result == Walk(State(), order, registry.plugins, disabledModules, list[i..] + rest, outcome, calls)
        invariant Requested(before, e, requests, calls)
      {
        WalkNext(State(), order, registry.plugins, disabledModules, list, i, rest, outcome, calls);
        var succeeds := outcome(calls);
        var called := StartModule(list[i], requests, calls, succeeds, before, e);
        if called {
          calls := calls + 1;
          if !succeeds {
            return false, calls;
          }
        }
      }
      assert list[|list|..] + rest == rest;
      return true, calls;
    }

    /** So many modules have been started since, and the environment is what their requests made of it. */
    ghost predicate Requested(before: nat, e: Env, requests: nat -> seq<SetRequest>, calls: nat)
      reads this`started, this`processEnv, this`systemdEnv, this`activationEnv, this`systemdEnabled
    {
      |started| == before + calls && Environment() == EnvExec(e, RequestsOf(requests, calls))
    }

    /** The body of the start loop up to its failure branch: skip the module, or start it and keep it if it
        started. Its requests are served while it starts. */
    method StartModule(m: Instance, requests: nat -> seq<SetRequest>, calls: nat, succeeds: bool,
                       ghost before: nat, ghost e: Env) returns (called: bool)
      requires Requested(before, e, requests, calls)
      modifies this`loadedModules, this`started
      modifies this`processEnv, this`systemdEnv, this`activationEnv
      ensures called == !Skipped(order, registry.plugins, disabledModules, m)
      ensures State() == if called then CallStart(old(State()), m, succeeds) else old(State())
      ensures Requested(before, e, requests, if called then calls + 1 else calls)
    {
      var name := NameIn(order, registry.plugins, m);
      if m == Null {
        return false;
      }
      if name in disabledModules {
        return false;
      }
      started := started + [m];
      ServeRequests(requests(calls));
      EnvExecAppend(e, RequestsOf(requests, calls), requests(calls));
      if succeeds {
        loadedModules := loadedModules + [m];
      }
      return true;
    }

    method ServeRequests(requests: seq<SetRequest>)
      modifies this`processEnv, this`systemdEnv, this`activationEnv
      ensures Environment() == EnvExec(old(Environment()), requests)
    {
      for i := 0 to |requests|
        invariant EnvExec(Environment(), requests[i..]) == EnvExec(old(Environment()), requests)
      {
        assert requests[i..][0] == requests[i] && requests[i..][1..] == requests[i + 1..];
        SetEnvironment(requests[i].key, requests[i].value, requests[i].busOk, requests[i].systemdOk);
      }
    }

    method Shutdown()
      modifies this`loadedModules, this`stopped
      ensures State() == ShutdownAll(old(State()))
    {
      loadedModules := Reverse(loadedModules);
      for i := 0 to |loadedModules|
        invariant stopped == old(stopped) + loadedModules[..i]
      {
        stopped := stopped + [loadedModules[i]];
      }
      assert loadedModules[..|loadedModules|] == loadedModules;
    }

    method SetEnvironment(key: string, value: string, busOk: bool, systemdOk: bool)
      modifies this`processEnv, this`systemdEnv, this`activationEnv
      ensures Environment() == EnvApply(old(Environment()), SetVar(key, value, busOk, systemdOk))
    {
      processEnv := processEnv[key := value];
      UploadEnvironment(busOk, systemdOk);
    }

    method UnsetEnvironment(key: string, systemdOk: bool)
      modifies this`processEnv, this`systemdEnv
      ensures Environment() == EnvApply(old(Environment()), UnsetVar(key, systemdOk))
    {
      processEnv := processEnv - {key};
      if systemdEnabled {
        if systemdOk {
          systemdEnv := systemdEnv - {key};
        }
      }
    }

    method UploadEnvironment(busOk: bool, systemdOk: bool)
      modifies this`systemdEnv, this`activationEnv
      ensures Environment() == Upload(old(Environment()), busOk, systemdOk)
    {
      var sysEnv := processEnv - {"XDG_SEAT", "XDG_SESSION_CLASS", "XDG_SESSION_DESKTOP", "XDG_SESSION_ID",
                                  "XDG_SESSION_TYPE", "XDG_VTNR"};
      var keys := sysEnv.Keys;
      while keys != {}
        invariant forall k :: k in sysEnv ==> k in processEnv && sysEnv[k] == processEnv[k] && k !in LOGIN_KEYS
        invariant forall k :: k in processEnv && k !in LOGIN_KEYS && k !in sysEnv ==> "BASH_FUNC" <= k
        invariant forall k :: k in sysEnv && "BASH_FUNC" <= k ==> k in keys
        decreases keys
      {
        var key :| key in keys;
        keys := keys - {key};
        if "BASH_FUNC" <= key {
          sysEnv := sysEnv - {key};
        }
      }
      assert sysEnv == AllowedOf(processEnv);
      if busOk {
        activationEnv := activationEnv + sysEnv;
      }
      if systemdEnabled {
        if systemdOk {
          systemdEnv := systemdEnv + sysEnv;
        }
      }
    }
  }
}
