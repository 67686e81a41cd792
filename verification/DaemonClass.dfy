/** The daemon object with the fields and the loops of the program, proved against DaemonSpec. */
module DaemonClass {
  import opened Traces
  import opened Registry
  import opened DaemonSpec

  class Daemon {
    const registry: PluginRegistry
    // The order in which the registry's hash iterates once discovery is over
    const order: seq<string>
    var systemdEnabled: bool
    var running: bool
    var disabledModules: seq<string>
    var modules: seq<Instance>
    var modulesOnDemand: seq<Instance>
    var loadedModules: seq<Instance>

    ghost var calls: seq<ModuleCall>

    ghost function State(): DaemonState
      reads this
    {
      DaemonState(systemdEnabled, running, disabledModules, modules, modulesOnDemand, loadedModules, calls)
    }

    constructor (registry: PluginRegistry, order: seq<string>)
      ensures this.registry == registry && this.order == order
      ensures State() == DaemonState(true, true, [], [], [], [], [])
    {
      this.registry, this.order, systemdEnabled, running := registry, order, true, true;
      disabledModules, modules, modulesOnDemand, loadedModules, calls := [], [], [], [], [];
    }

    method SetSystemdEnabled(value: bool)
      modifies this`systemdEnabled
      ensures systemdEnabled == SetFlag(old(systemdEnabled), value)
    {
      if systemdEnabled && !value {
        return;
      }
      systemdEnabled := value;
    }

    method DisableModule(name: string)
      modifies this`disabledModules
      ensures disabledModules == old(disabledModules) + [name]
    {
      disabledModules := disabledModules + [name];
    }

    /** named: the outcome of claiming the D-Bus name, which only happens without systemd. */
    method Initialize(named: bool, staticPlugins: seq<Plugin>, external: seq<Plugin>) returns (ok: bool)
      modifies this`modules, this`modulesOnDemand, registry
      ensures ok == (systemdEnabled || named)
      ensures ok ==>
        && registry.plugins == Registered(registry.iid, registry.kind, old(registry.plugins), staticPlugins + external)
        && registry.autoLoad == AutoLoads(registry.iid, registry.kind, old(registry.autoLoad), staticPlugins + external)
      ensures !ok ==> unchanged(registry)
      ensures var auto := Discovered(order, registry.plugins, registry.autoLoad, true);
        var onDemand := Discovered(order, registry.plugins, registry.autoLoad, false);
        State() == if ok then old(State()).(modules := old(modules) + auto, onDemand := old(modulesOnDemand) + onDemand)
                   else old(State())
    {
      if !systemdEnabled && !named {
        return false;
      }
      registry.Discover(staticPlugins, external);
      for n := 0 to |order|
        modifies this`modules, this`modulesOnDemand
        invariant modules == old(modules) + Discovered(order[..n], registry.plugins, registry.autoLoad, true)
        invariant modulesOnDemand
                  == old(modulesOnDemand) + Discovered(order[..n], registry.plugins, registry.autoLoad, false)
      {
        assert order[..n + 1][..n] == order[..n];
        var m := Resolve(registry.plugins, order[n]);
        if m == Null {
          continue;
        }
        if order[n] !in registry.autoLoad || registry.autoLoad[order[n]] {
          modules := modules + [m];
        } else {
          modulesOnDemand := modulesOnDemand + [m];
        }
      }
      assert order[..|order|] == order;
      return true;
    }

    method Start()
      modifies this`loadedModules, this`calls
      ensures State() == StartDaemon(old(State()), order, registry.plugins)
    {
      if systemdEnabled {
        return;
      }
      for i := 0 to |modules|
        invariant StartEach(State(), order, registry.plugins, modules[i..])
                  == StartEach(old(State()), order, registry.plugins, modules)
      {
        assert modules[i..][1..] == modules[i + 1..];
        var name := NameIn(order, registry.plugins, modules[i]);
        if modules[i] == Null {
          continue;
        }
        if name in disabledModules {
          continue;
        }
        calls := calls + [StartCall(modules[i])];
        loadedModules := loadedModules + [modules[i]];
      }
    }

    method Shutdown()
      modifies this`running, this`loadedModules, this`calls
      ensures State() == DaemonApply(old(State()), registry.plugins, ShutdownStep)
    {
      running := false;
      loadedModules := Reverse(loadedModules);
      ghost var reversed := loadedModules;
      for i := 0 to |loadedModules|
        invariant !running && loadedModules == reversed && calls == old(calls)
      {
        var name := NameIn(order, registry.plugins, loadedModules[i]);
        UnloadModule(name);
      }
    }

    method LoadModule(name: string, serviceOk: bool)
      modifies this`loadedModules, this`calls
      ensures State() == DaemonApply(old(State()), registry.plugins, LoadStep(name, serviceOk))
    {
      if name in disabledModules {
        return;
      }
      var m := Resolve(registry.plugins, name);
      if m !in loadedModules {
        if m !in modules {
          return;
        }
        if systemdEnabled {
          if !serviceOk {
            return;
          }
        }
        calls := calls + [StartCall(m)];
        loadedModules := loadedModules + [m];
      }
    }

    method UnloadModule(name: string)
      modifies this`loadedModules, this`calls
      ensures State() == DaemonApply(old(State()), registry.plugins, UnloadStep(name))
    {
      if !running {
        return;
      }
      var m := Resolve(registry.plugins, name);
      if m in loadedModules {
        calls := calls + [StopCall(m)];
        loadedModules := RemoveOne(loadedModules, m);
      }
    }

    method HandleModuleDeleted(m: Instance)
      modifies this`loadedModules, this`modules, this`modulesOnDemand
      ensures State() == DaemonApply(old(State()), registry.plugins, DeleteStep(m))
    {
      loadedModules := RemoveOne(loadedModules, m);
      modules := RemoveOne(modules, m);
      modulesOnDemand := RemoveOne(modulesOnDemand, m);
    }
  }
}
