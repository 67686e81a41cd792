/** The daemon's module lists as a state machine: load, unload, deletion and shutdown. */
module DaemonSpec {
  import opened Traces
  import opened Registry

  datatype ModuleCall = StartCall(m: Instance) | StopCall(m: Instance)

  datatype DaemonState = DaemonState(systemd: bool, running: bool, disabled: seq<string>,
                           modules: seq<Instance>, onDemand: seq<Instance>, loaded: seq<Instance>,
                           calls: seq<ModuleCall>)

  /** Daemon::setSystemdEnabled: the flag cannot be cleared. */
  function SetFlag(flag: bool, value: bool): bool {
    flag || value
  }

  function SetFlags(flag: bool, values: seq<bool>): bool
    decreases |values|
  {
    if values == [] then flag else SetFlags(SetFlag(flag, values[0]), values[1..])
  }

  /** The object a name resolves to, if it is a daemon module. */
  function Resolve(plugins: map<string, Instance>, name: string): Instance {
    if name in plugins && plugins[name].Object? && plugins[name].isModule then plugins[name] else Null
  }

  function Started(d: DaemonState, m: Instance): DaemonState {
    d.(loaded := d.loaded + [m], calls := d.calls + [StartCall(m)])
  }

  /** The loop of Daemon::start over a list of modules. */
  function StartEach(d: DaemonState, order: seq<string>, plugins: map<string, Instance>, list: seq<Instance>)
    : DaemonState
    decreases |list|
  {
    if list == [] then d
    else if Skipped(order, plugins, d.disabled, list[0]) then
      StartEach(d, order, plugins, list[1..])
    else StartEach(Started(d, list[0]), order, plugins, list[1..])
  }

  function StartDaemon(d: DaemonState, order: seq<string>, plugins: map<string, Instance>): DaemonState {
    if d.systemd then d else StartEach(d, order, plugins, d.modules)
  }

  function Load(d: DaemonState, plugins: map<string, Instance>, name: string, serviceOk: bool): DaemonState {
    var m := Resolve(plugins, name);
    if name in d.disabled || m in d.loaded || m !in d.modules || (d.systemd && !serviceOk) then d
    else Started(d, m)
  }

  function Unload(d: DaemonState, plugins: map<string, Instance>, name: string): DaemonState {
    var m := Resolve(plugins, name);
    if !d.running || m !in d.loaded then d
    else d.(loaded := RemoveOne(d.loaded, m), calls := d.calls + [StopCall(m)])
  }

  /** The handler of moduleDeleted. */
  function Delete(d: DaemonState, m: Instance): DaemonState {
    d.(loaded := RemoveOne(d.loaded, m), modules := RemoveOne(d.modules, m), onDemand := RemoveOne(d.onDemand, m))
  }

  /** The running flag is cleared first, so every unloadModule of the shutdown loop returns at once. */
  function Stop(d: DaemonState): DaemonState {
    d.(running := false, loaded := Reverse(d.loaded))
  }

  datatype DaemonStep =
    | LoadStep(name: string, serviceOk: bool)
    | UnloadStep(name: string)
    | DeleteStep(m: Instance)
    | ShutdownStep

  function DaemonApply(d: DaemonState, plugins: map<string, Instance>, step: DaemonStep): DaemonState {
    match step
    case LoadStep(name, serviceOk) => Load(d, plugins, name, serviceOk)
    case UnloadStep(name) => Unload(d, plugins, name)
    case DeleteStep(m) => Delete(d, m)
    case ShutdownStep => Stop(d)
  }

  function DaemonExec(d: DaemonState, plugins: map<string, Instance>, steps: seq<DaemonStep>): DaemonState
    decreases |steps|
  {
    if steps == [] then d else DaemonExec(DaemonApply(d, plugins, steps[0]), plugins, steps[1..])
  }

  // ---------- The invariant ----------

  /** The last call about m is a start. */
  predicate On(calls: seq<ModuleCall>, m: Instance) {
    calls != [] && (if calls[|calls| - 1].m == m then calls[|calls| - 1].StartCall? else On(calls[..|calls| - 1], m))
  }

  /** The calls about m alternate between start and stop, beginning with start. */
  predicate Alternates(calls: seq<ModuleCall>, m: Instance) {
    calls == [] ||
    (&& Alternates(calls[..|calls| - 1], m)
     && (calls[|calls| - 1] == StartCall(m) ==> !On(calls[..|calls| - 1], m))
     && (calls[|calls| - 1] == StopCall(m) ==> On(calls[..|calls| - 1], m)))
  }

  ghost predicate Lists(d: DaemonState) {
    && NoDup(d.modules) && NoDup(d.onDemand) && NoDup(d.loaded)
    && (forall m :: m in d.loaded ==> m in d.modules)
    && (forall m :: m in d.modules ==> m !in d.onDemand)
    && Null !in d.modules
  }

  /** No loaded module is registered under a disabled name. */
  ghost predicate NoneDisabled(d: DaemonState, plugins: map<string, Instance>) {
    forall id :: id in plugins && plugins[id] in d.loaded ==> id !in d.disabled
  }

  ghost predicate CallsAgree(d: DaemonState) {
    && (forall m :: Alternates(d.calls, m))
    && (forall m :: m in d.modules ==> (On(d.calls, m) <==> m in d.loaded))
  }

  ghost predicate DaemonInv(d: DaemonState, plugins: map<string, Instance>) {
    Lists(d) && NoneDisabled(d, plugins) && CallsAgree(d)
  }

  lemma CallAgrees(d: DaemonState, c: ModuleCall, loaded: seq<Instance>)
    requires CallsAgree(d) && Lists(d) && c.m in d.modules
    requires c.StartCall? <==> c.m !in d.loaded
    requires forall m :: m in loaded <==> if m == c.m then c.StartCall? else m in d.loaded
    ensures CallsAgree(d.(calls := d.calls + [c], loaded := loaded))
  {
    var calls := d.calls + [c];
    assert calls[..|calls| - 1] == d.calls;
    forall m ensures Alternates(calls, m) && (On(calls, m) <==> if m == c.m then c.StartCall? else On(d.calls, m)) {
      assert Alternates(d.calls, m);
    }
  }

  lemma StartedInv(d: DaemonState, plugins: map<string, Instance>, m: Instance)
    requires DaemonInv(d, plugins) && m in d.modules && m !in d.loaded
    requires forall id :: id in plugins && plugins[id] == m ==> id !in d.disabled
    ensures DaemonInv(Started(d, m), plugins)
  {
    CallAgrees(d, StartCall(m), d.loaded + [m]);
  }

  lemma UnloadInv(d: DaemonState, plugins: map<string, Instance>, name: string)
    requires DaemonInv(d, plugins)
    ensures DaemonInv(Unload(d, plugins, name), plugins)
  {
    var m := Resolve(plugins, name);
    if d.running && m in d.loaded {
      RemoveOneNoDup(d.loaded, m);
      forall x ensures x in RemoveOne(d.loaded, m) <==> x in d.loaded && x != m {
        RemoveOneMembers(d.loaded, m, x);
      }
      CallAgrees(d, StopCall(m), RemoveOne(d.loaded, m));
    }
  }

  lemma DeleteInv(d: DaemonState, plugins: map<string, Instance>, m: Instance)
    requires DaemonInv(d, plugins)
    ensures DaemonInv(Delete(d, m), plugins)
  {
    RemoveOneNoDup(d.loaded, m);
    RemoveOneNoDup(d.modules, m);
    RemoveOneNoDup(d.onDemand, m);
    forall x
      ensures x in RemoveOne(d.loaded, m) <==> x in d.loaded && x != m
      ensures x in RemoveOne(d.modules, m) <==> x in d.modules && x != m
      ensures x in RemoveOne(d.onDemand, m) <==> x in d.onDemand && x != m
    {
      RemoveOneMembers(d.loaded, m, x);
      RemoveOneMembers(d.modules, m, x);
      RemoveOneMembers(d.onDemand, m, x);
    }
  }

  lemma StopInv(d: DaemonState, plugins: map<string, Instance>)
    requires DaemonInv(d, plugins)
    ensures DaemonInv(Stop(d), plugins)
  {
    ReverseNoDup(d.loaded);
    forall x ensures x in Reverse(d.loaded) <==> x in d.loaded {
      ReverseMembers(d.loaded, x);
    }
  }

  lemma LoadInv(d: DaemonState, plugins: map<string, Instance>, name: string, serviceOk: bool)
    requires DaemonInv(d, plugins) && Distinct(plugins)
    ensures DaemonInv(Load(d, plugins, name, serviceOk), plugins)
  {
    var m := Resolve(plugins, name);
    if Load(d, plugins, name, serviceOk) != d {
      StartedInv(d, plugins, m);
    }
  }

  /** Over every run of load, unload, delete and shutdown requests: the loaded modules are listed once, are
      among the auto-load modules and so not among the on-demand ones, and none is registered under a disabled
      name; the start and stop calls of every module alternate beginning with a start, and a module that is
      still there was last started if and only if it is loaded. */
  lemma {:induction false} DaemonRun(d: DaemonState, plugins: map<string, Instance>, steps: seq<DaemonStep>)
    requires DaemonInv(d, plugins) && Distinct(plugins)
    ensures DaemonInv(DaemonExec(d, plugins, steps), plugins)
    ensures DaemonExec(d, plugins, steps).disabled == d.disabled
    decreases |steps|
  {
    if steps == [] {
    } else {
      match steps[0] {
        case LoadStep(name, serviceOk) => LoadInv(d, plugins, name, serviceOk);
        case UnloadStep(name) => UnloadInv(d, plugins, name);
        case DeleteStep(m) => DeleteInv(d, plugins, m);
        case ShutdownStep => StopInv(d, plugins);
      }
      DaemonRun(DaemonApply(d, plugins, steps[0]), plugins, steps[1..]);
    }
  }

  /** The initial start keeps the invariant too. */
  lemma {:induction false} StartEachInv(d: DaemonState, order: seq<string>, plugins: map<string, Instance>,
                                        list: seq<Instance>)
    requires DaemonInv(d, plugins) && Distinct(plugins) && IsPermutation(order, plugins.Keys)
    requires NoDup(list) && forall m :: m in list ==> m in d.modules && m !in d.loaded
    ensures DaemonInv(StartEach(d, order, plugins, list), plugins)
    decreases |list|
  {
    if list == [] {
    } else {
      var m, rest := list[0], list[1..];
      assert list == [m] + rest;
      if Skipped(order, plugins, d.disabled, m) {
        StartEachInv(d, order, plugins, rest);
      } else {
        forall id | id in plugins && plugins[id] == m ensures id !in d.disabled {
          NameOfRegistered(order, plugins, id);
        }
        StartedInv(d, plugins, m);
        StartEachInv(Started(d, m), order, plugins, rest);
      }
    }
  }

  /** Discovery splits the daemon modules by their auto-load flag, in hash iteration order. */
  function Discovered(order: seq<string>, plugins: map<string, Instance>, autoLoad: map<string, bool>, auto: bool)
    : seq<Instance>
  {
    if order == [] then []
    else
      var before, name := Discovered(order[..|order| - 1], plugins, autoLoad, auto), order[|order| - 1];
      var loads := name !in autoLoad || autoLoad[name];
      if Resolve(plugins, name) != Null && loads == auto then before + [Resolve(plugins, name)] else before
  }

  lemma {:induction false} DiscoveredMembers(order: seq<string>, plugins: map<string, Instance>,
                                             autoLoad: map<string, bool>, auto: bool, m: Instance)
    ensures m in Discovered(order, plugins, autoLoad, auto) <==>
            exists k :: k in order && Resolve(plugins, k) == m && m != Null && (k !in autoLoad || autoLoad[k]) == auto
    decreases |order|
  {
    if order == [] {
    } else {
      var front, name := order[..|order| - 1], order[|order| - 1];
      DiscoveredMembers(front, plugins, autoLoad, auto, m);
      assert order == front + [name];
      assert forall k :: k in order <==> k in front || k == name;
    }
  }

  lemma {:induction false} DiscoveredNoDup(order: seq<string>, plugins: map<string, Instance>,
                                           autoLoad: map<string, bool>, auto: bool)
    requires NoDup(order) && Distinct(plugins)
    ensures NoDup(Discovered(order, plugins, autoLoad, auto))
    decreases |order|
  {
    if order == [] {
    } else {
      var front, name := order[..|order| - 1], order[|order| - 1];
      DiscoveredNoDup(front, plugins, autoLoad, auto);
      DiscoveredMembers(front, plugins, autoLoad, auto, Resolve(plugins, name));
      assert name !in front;
    }
  }

  /** The daemon after discovery. */
  function AfterDiscovery(systemd: bool, disabled: seq<string>, order: seq<string>, plugins: map<string, Instance>,
                          autoLoad: map<string, bool>): DaemonState {
    DaemonState(systemd, true, disabled, Discovered(order, plugins, autoLoad, true),
                Discovered(order, plugins, autoLoad, false), [], [])
  }

  /** With distinct objects, the state after discovery and an optional initial start satisfies the invariant. */
  lemma InitialDaemon(systemd: bool, disabled: seq<string>, order: seq<string>, plugins: map<string, Instance>,
                      autoLoad: map<string, bool>)
    requires IsPermutation(order, plugins.Keys) && Distinct(plugins)
    ensures var d := AfterDiscovery(systemd, disabled, order, plugins, autoLoad);
      DaemonInv(d, plugins) && DaemonInv(StartDaemon(d, order, plugins), plugins)
  {
    var d := AfterDiscovery(systemd, disabled, order, plugins, autoLoad);
    DiscoveredNoDup(order, plugins, autoLoad, true);
    DiscoveredNoDup(order, plugins, autoLoad, false);
    DiscoveredMembers(order, plugins, autoLoad, true, Null);
    forall m | m in d.modules ensures m !in d.onDemand {
      DiscoveredMembers(order, plugins, autoLoad, true, m);
      DiscoveredMembers(order, plugins, autoLoad, false, m);
    }
    StartEachInv(d, order, plugins, d.modules);
  }

  /** From the plugin files to the end of any run: with one id for each plugin object, discovery, start and
      every sequence of load, unload, delete and shutdown requests keep the invariant. */
  lemma DaemonLife(iid: string, kind: string, list: seq<Plugin>, systemd: bool, disabled: seq<string>,
                   order: seq<string>, steps: seq<DaemonStep>)
    requires OneIdEach(iid, kind, list)
    requires IsPermutation(order, Registered(iid, kind, map[], list).Keys)
    ensures var plugins := Registered(iid, kind, map[], list);
      var d := AfterDiscovery(systemd, disabled, order, plugins, AutoLoads(iid, kind, map[], list));
      DaemonInv(DaemonExec(StartDaemon(d, order, plugins), plugins, steps), plugins)
  {
    var plugins, autoLoad := Registered(iid, kind, map[], list), AutoLoads(iid, kind, map[], list);
    DiscoveredDistinct(iid, kind, list);
    InitialDaemon(systemd, disabled, order, plugins, autoLoad);
    DaemonRun(StartDaemon(AfterDiscovery(systemd, disabled, order, plugins, autoLoad), order, plugins), plugins, steps);
  }

  // ---------- What each request does ----------

  /** A load starts and records its module, and does nothing else, if and only if the name is registered for a
      daemon module that is an auto-load module and not loaded, the name is not disabled, and without systemd or
      with the service name granted; otherwise it does nothing. */
  lemma LoadIff(d: DaemonState, plugins: map<string, Instance>, name: string, serviceOk: bool)
    requires Null !in d.modules
    ensures var t := DaemonApply(d, plugins, LoadStep(name, serviceOk));
      if name in plugins && plugins[name].Object? && plugins[name].isModule && plugins[name] in d.modules
         && plugins[name] !in d.loaded && name !in d.disabled && (!d.systemd || serviceOk)
      then t == d.(loaded := d.loaded + [plugins[name]], calls := d.calls + [StartCall(plugins[name])])
      else t == d
  {
  }

  /** An unload stops its module once and takes exactly it out of the loaded ones, keeping the order of the
      others, if and only if the daemon is running and the module is loaded; otherwise it does nothing. */
  lemma UnloadIff(d: DaemonState, plugins: map<string, Instance>, name: string)
    requires Lists(d)
    ensures var t := DaemonApply(d, plugins, UnloadStep(name));
      if d.running && name in plugins && plugins[name].Object? && plugins[name].isModule && plugins[name] in d.loaded
      then
        && t == d.(loaded := t.loaded, calls := d.calls + [StopCall(plugins[name])])
        && exists a, b :: Without(d.loaded, plugins[name], a, b) && t.loaded == a + b
      else t == d
  {
    var m := Resolve(plugins, name);
    if d.running && m in d.loaded {
      WithoutOne(d.loaded, m);
    }
  }

  /** The list is a, then m, then b, and m is in neither part. */
  ghost predicate Without(list: seq<Instance>, m: Instance, a: seq<Instance>, b: seq<Instance>) {
    list == a + [m] + b && m !in a && m !in b
  }

  lemma WithoutOne(list: seq<Instance>, m: Instance)
    requires NoDup(list) && m in list
    ensures exists a, b :: Without(list, m, a, b) && RemoveOne(list, m) == a + b
  {
    var i :| 0 <= i < |list| && list[i] == m;
    var a, b := list[..i], list[i + 1..];
    assert list == a + [m] + b;
    RemoveOneSplits(a, m, b);
    assert Without(list, m, a, b);
  }

  /** A deletion takes the module out of all three lists and calls nothing; a shutdown clears the flag, reverses
      the loaded modules and calls nothing. */
  lemma DeleteAndStop(d: DaemonState, plugins: map<string, Instance>, m: Instance, x: Instance)
    requires Lists(d)
    ensures var t := DaemonApply(d, plugins, DeleteStep(m));
      && (x in t.loaded <==> x in d.loaded && x != m) && (x in t.modules <==> x in d.modules && x != m)
      && (x in t.onDemand <==> x in d.onDemand && x != m)
      && t == d.(loaded := t.loaded, modules := t.modules, onDemand := t.onDemand)
    ensures var t := DaemonApply(d, plugins, ShutdownStep);
      && t == d.(running := false, loaded := t.loaded) && |t.loaded| == |d.loaded|
      && forall i :: 0 <= i < |d.loaded| ==> t.loaded[i] == d.loaded[|d.loaded| - 1 - i]
  {
    RemoveOneMembers(d.loaded, m, x);
    RemoveOneMembers(d.modules, m, x);
    RemoveOneMembers(d.onDemand, m, x);
  }

  function StartCalls(list: seq<Instance>): seq<ModuleCall> {
    seq(|list|, i requires 0 <= i < |list| => StartCall(list[i]))
  }

  lemma {:induction false} StartEachRuns(d: DaemonState, order: seq<string>, plugins: map<string, Instance>,
                                         list: seq<Instance>)
    ensures var run := EnabledModules(order, plugins, d.disabled, list);
      StartEach(d, order, plugins, list) == d.(loaded := d.loaded + run, calls := d.calls + StartCalls(run))
    decreases |list|
  {
    if list == [] {
      assert d.loaded + [] == d.loaded && d.calls + StartCalls([]) == d.calls;
    } else if Skipped(order, plugins, d.disabled, list[0]) {
      StartEachRuns(d, order, plugins, list[1..]);
    } else {
      var rest := EnabledModules(order, plugins, d.disabled, list[1..]);
      StartEachRuns(Started(d, list[0]), order, plugins, list[1..]);
      Associate(d.loaded, list[0], rest);
      Associate(d.calls, StartCall(list[0]), StartCalls(rest));
      assert StartCalls([list[0]] + rest) == [StartCall(list[0])] + StartCalls(rest);
    }
  }

  ghost predicate StartsExactly(d: DaemonState, t: DaemonState, run: seq<Instance>) {
    && Subsequence(run, d.modules)
    && t == d.(loaded := d.loaded + run, calls := t.calls)
    && |t.calls| == |d.calls| + |run| && d.calls <= t.calls
    && forall i :: 0 <= i < |run| ==> t.calls[|d.calls| + i] == StartCall(run[i])
  }

  /** Without systemd, start calls and records modules of the auto-load list in its order: exactly those that are
      registered under names that are not disabled. */
  lemma StartRuns(d: DaemonState, order: seq<string>, plugins: map<string, Instance>)
    requires !d.systemd && IsPermutation(order, plugins.Keys) && Distinct(plugins)
    ensures exists run :: StartsExactly(d, StartDaemon(d, order, plugins), run)
                          && forall id :: id in plugins && plugins[id] != Null ==>
                               (plugins[id] in run <==> plugins[id] in d.modules && id !in d.disabled)
  {
    var run := EnabledModules(order, plugins, d.disabled, d.modules);
    StartEachRuns(d, order, plugins, d.modules);
    EnabledOrder(order, plugins, d.disabled, d.modules);
    forall id | id in plugins && plugins[id] != Null
      ensures plugins[id] in run <==> plugins[id] in d.modules && id !in d.disabled
    {
      EnabledMember(order, plugins, d.disabled, d.modules, id);
    }
    assert StartsExactly(d, StartDaemon(d, order, plugins), run);
  }

  /** From the plugin files: the daemon modules are listed in hash order, each under auto-load or on demand as its
      own metadata says. */
  lemma DiscoverySplits(iid: string, kind: string, list: seq<Plugin>, systemd: bool, disabled: seq<string>,
                        order: seq<string>, i: int)
    requires OneIdEach(iid, kind, list)
    requires IsPermutation(order, Registered(iid, kind, map[], list).Keys)
    requires 0 <= i < |list| && list[i].hasIid && list[i].hasMetaData && list[i].iid == iid && list[i].kind == kind
    requires forall j :: i < j < |list| && list[j].id == list[i].id ==>
      !(list[j].hasIid && list[j].hasMetaData && list[j].iid == iid && list[j].kind == kind)
    ensures var m := list[i].instance;
      var d := AfterDiscovery(systemd, disabled, order, Registered(iid, kind, map[], list),
                              AutoLoads(iid, kind, map[], list));
      && (m in d.modules <==> m.Object? && m.isModule && list[i].autoLoad)
      && (m in d.onDemand <==> m.Object? && m.isModule && !list[i].autoLoad)
  {
    var plugins, autoLoad := Registered(iid, kind, map[], list), AutoLoads(iid, kind, map[], list);
    var m, id := list[i].instance, list[i].id;
    assert IsLast(iid, kind, list, id, i);
    DiscoveryIff(iid, kind, list, id);
    DiscoveredDistinct(iid, kind, list);
    DiscoveredMembers(order, plugins, autoLoad, true, m);
    DiscoveredMembers(order, plugins, autoLoad, false, m);
    assert id in order && plugins[id] == m && autoLoad[id] == list[i].autoLoad;
    assert forall k :: k in plugins && plugins[k] == m != Null ==> k == id;
  }

  lemma {:induction false} DiscoveredOrder(order: seq<string>, plugins: map<string, Instance>,
                                           autoLoad: map<string, bool>, auto: bool)
    requires forall k :: k in order ==> k in plugins
    ensures Subsequence(Discovered(order, plugins, autoLoad, auto), InstancesOf(order, plugins))
    decreases |order|
  {
    if order == [] {
    } else {
      var front, name := order[..|order| - 1], order[|order| - 1];
      assert order == front + [name];
      DiscoveredOrder(front, plugins, autoLoad, auto);
      assert InstancesOf(order, plugins) == InstancesOf(front, plugins) + [plugins[name]];
      SubsequenceAppend(Discovered(front, plugins, autoLoad, auto), InstancesOf(front, plugins), plugins[name]);
    }
  }

  // ---------- What shutdown and the systemd flag do not do ----------

  /** From a shutdown on, no module is ever stopped, though modules can still be loaded: whatever was loaded
      at shutdown ends with a start as its last call. */
  lemma {:induction false} NothingStopsAfterShutdown(d: DaemonState, plugins: map<string, Instance>,
                                                     steps: seq<DaemonStep>)
    requires !d.running
    ensures var t := DaemonExec(d, plugins, steps);
      && !t.running && d.calls <= t.calls
      && forall i :: |d.calls| <= i < |t.calls| ==> t.calls[i].StartCall?
    decreases |steps|
  {
    if steps == [] {
    } else {
      NothingStopsAfterShutdown(DaemonApply(d, plugins, steps[0]), plugins, steps[1..]);
    }
  }

  /** Shutdown itself makes no call at all, so it leaves every module stopped if and only if none is loaded. */
  lemma ShutdownStopsAllIff(d: DaemonState, plugins: map<string, Instance>)
    requires DaemonInv(d, plugins)
    ensures Stop(d).calls == d.calls
    ensures (forall m :: m in d.modules ==> !On(Stop(d).calls, m)) <==> d.loaded == []
  {
    if d.loaded != [] {
      assert d.loaded[0] in d.loaded;
      assert d.loaded[0] in d.modules && On(d.calls, d.loaded[0]);
    }
  }

  /** The flag ends up set if and only if it began set or some request set it. */
  lemma {:induction false} FlagIff(flag: bool, values: seq<bool>)
    ensures SetFlags(flag, values) <==> flag || true in values
    decreases |values|
  {
    if values == [] {
    } else {
      FlagIff(SetFlag(flag, values[0]), values[1..]);
      assert values == [values[0]] + values[1..];
    }
  }

  /** The loop starts some module if and only if it does not skip all of them. */
  lemma {:induction false} StartEachCalls(d: DaemonState, order: seq<string>, plugins: map<string, Instance>,
                                          list: seq<Instance>)
    ensures |d.calls| <= |StartEach(d, order, plugins, list).calls|
    ensures StartEach(d, order, plugins, list) == d <==>
            forall m :: m in list ==> Skipped(order, plugins, d.disabled, m)
    decreases |list|
  {
    if list == [] {
    } else if Skipped(order, plugins, d.disabled, list[0]) {
      StartEachCalls(d, order, plugins, list[1..]);
      assert list == [list[0]] + list[1..];
    } else {
      StartEachCalls(Started(d, list[0]), order, plugins, list[1..]);
      assert list[0] in list;
    }
  }

  /** Whatever requests to set the flag come before it, start does nothing if and only if the flag began set,
      some request set it, or every module is skipped. */
  lemma StartDoesNothingIff(d: DaemonState, values: seq<bool>, order: seq<string>, plugins: map<string, Instance>)
    ensures var e := d.(systemd := SetFlags(d.systemd, values));
      StartDaemon(e, order, plugins) == e <==>
      d.systemd || true in values || forall m :: m in d.modules ==> Skipped(order, plugins, d.disabled, m)
  {
    FlagIff(d.systemd, values);
    StartEachCalls(d.(systemd := SetFlags(d.systemd, values)), order, plugins, d.modules);
  }

  /** The daemon begins with the flag set, so whatever it is set to afterwards, start starts nothing. */
  lemma StartDoesNothing(d: DaemonState, values: seq<bool>, order: seq<string>, plugins: map<string, Instance>)
    requires d.systemd
    ensures var e := d.(systemd := SetFlags(d.systemd, values)); StartDaemon(e, order, plugins) == e
  {
    StartDoesNothingIff(d, values, order, plugins);
  }
}
