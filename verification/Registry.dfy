/** The plugin registries of the session manager and of the daemon. They differ in the interface and type they
    accept, and in that only the daemon's keeps the metadata. */
module Registry {
  import opened Traces

  /** Liri::SessionModule::StartupPhase, from EarlyInitialization to Applications. */
  type Phase = p: nat | p < 5

  /** A plugin object. Two values are the same object if and only if they are equal. */
  datatype Instance = Null | Object(oid: nat, isModule: bool, phase: Phase)

  /** The JSON of one plugin: interface id and metadata, if present, with the metadata's Id, Type and
      X-Liri-DaemonModule-AutoLoad (which defaults to true). */
  datatype Plugin = Plugin(instance: Instance, hasIid: bool, iid: string, hasMetaData: bool,
                           id: string, kind: string, autoLoad: bool)

  predicate Accepted(iid: string, kind: string, p: Plugin) {
    p.hasIid && p.hasMetaData && p.iid == iid && p.kind == kind
  }

  /** The plugin has this id and the interface id, the metadata and the type that its registry asks for. */
  ghost predicate Carries(iid: string, kind: string, id: string, p: Plugin) {
    p.id == id && p.hasIid && p.hasMetaData && p.iid == iid && p.kind == kind
  }

  /** Index i is the last plugin of the list that carries this id. */
  ghost predicate IsLast(iid: string, kind: string, list: seq<Plugin>, id: string, i: int) {
    && 0 <= i < |list| && Carries(iid, kind, id, list[i])
    && forall j :: i < j < |list| ==> !Carries(iid, kind, id, list[j])
  }

  ghost predicate IsPermutation(order: seq<string>, keys: set<string>) {
    NoDup(order) && forall k :: k in order <==> k in keys
  }

  /** QHash::key: a name whose value is the instance, the first in iteration order, or the empty string. */
  function NameIn(order: seq<string>, plugins: map<string, Instance>, instance: Instance): (name: string)
    ensures (exists k :: k in order && k in plugins && plugins[k] == instance) ==>
      name in order && name in plugins && plugins[name] == instance
  {
    if order == [] then ""
    else if order[0] in plugins && plugins[order[0]] == instance then order[0]
    else NameIn(order[1..], plugins, instance)
  }

  /** What both start loops pass over: an invalid module, or one with a disabled name. */
  predicate Skipped(order: seq<string>, plugins: map<string, Instance>, disabled: seq<string>, m: Instance) {
    m == Null || NameIn(order, plugins, m) in disabled
  }

  /** The modules that start does not skip. */
  function EnabledModules(order: seq<string>, plugins: map<string, Instance>, disabled: seq<string>,
                          list: seq<Instance>): seq<Instance>
  {
    if list == [] then []
    else if Skipped(order, plugins, disabled, list[0]) then EnabledModules(order, plugins, disabled, list[1..])
    else [list[0]] + EnabledModules(order, plugins, disabled, list[1..])
  }

  /** The registered objects in hash order. */
  function InstancesOf(order: seq<string>, plugins: map<string, Instance>): seq<Instance>
    requires forall k :: k in order ==> k in plugins
  {
    seq(|order|, i requires 0 <= i < |order| => assert order[i] in order; plugins[order[i]])
  }

  /** Distinct names hold distinct objects, as they do unless one plugin file is loaded twice. */
  ghost predicate Distinct(plugins: map<string, Instance>) {
    forall a, b :: a in plugins && b in plugins && plugins[a] == plugins[b] && plugins[a] != Null ==> a == b
  }

  /** With distinct objects the reverse lookup returns the name the object is registered under, whatever
      the iteration order. */
  lemma NameOfRegistered(order: seq<string>, plugins: map<string, Instance>, id: string)
    requires IsPermutation(order, plugins.Keys) && Distinct(plugins)
    requires id in plugins && plugins[id] != Null
    ensures NameIn(order, plugins, plugins[id]) == id
  {
  }

  /** What is not skipped is exactly what is registered under names that are not disabled, in list order. */
  lemma {:induction false} EnabledOrder(order: seq<string>, plugins: map<string, Instance>, disabled: seq<string>,
                                        list: seq<Instance>)
    ensures Subsequence(EnabledModules(order, plugins, disabled, list), list)
    decreases |list|
  {
    if list == [] {
    } else {
      var rest := EnabledModules(order, plugins, disabled, list[1..]);
      EnabledOrder(order, plugins, disabled, list[1..]);
      if Skipped(order, plugins, disabled, list[0]) {
        SubsequenceLater(rest, list[0], list[1..]);
        assert list == [list[0]] + list[1..];
      }
    }
  }

  lemma {:induction false} EnabledMember(order: seq<string>, plugins: map<string, Instance>, disabled: seq<string>,
                                         list: seq<Instance>, id: string)
    requires IsPermutation(order, plugins.Keys) && Distinct(plugins) && id in plugins && plugins[id] != Null
    ensures plugins[id] in EnabledModules(order, plugins, disabled, list) <==> plugins[id] in list && id !in disabled
    decreases |list|
  {
    if list == [] {
    } else {
      EnabledMember(order, plugins, disabled, list[1..], id);
      NameOfRegistered(order, plugins, id);
      assert list == [list[0]] + list[1..];
    }
  }

  class PluginRegistry {
    const iid: string
    const kind: string
    var plugins: map<string, Instance>
    var autoLoad: map<string, bool>

    constructor (iid: string, kind: string)
      ensures this.iid == iid && this.kind == kind && plugins == map[] && autoLoad == map[]
    {
      this.iid, this.kind, plugins, autoLoad := iid, kind, map[], map[];
    }

    method AddPlugin(p: Plugin)
      modifies this
      ensures p.hasIid && p.hasMetaData && p.iid == iid && p.kind == kind ==>
        plugins == old(plugins)[p.id := p.instance] && autoLoad == old(autoLoad)[p.id := p.autoLoad]
      ensures !(p.hasIid && p.hasMetaData && p.iid == iid && p.kind == kind) ==> unchanged(this)
    {
      if !p.hasIid || !p.hasMetaData {
        return;
      }
      if p.iid != iid {
        return;
      }
      if p.kind != kind {
        return;
      }
      plugins := plugins[p.id := p.instance];
      autoLoad := autoLoad[p.id := p.autoLoad];
    }

    /** Static plugins first, then the files of the plugin directory. */
    method Discover(staticPlugins: seq<Plugin>, external: seq<Plugin>)
      modifies this
      ensures plugins == Registered(iid, kind, old(plugins), staticPlugins + external)
      ensures autoLoad == AutoLoads(iid, kind, old(autoLoad), staticPlugins + external)
    {
      ghost var list := staticPlugins + external;
      for n := 0 to |staticPlugins|
        invariant plugins == Registered(iid, kind, old(plugins), list[..n])
        invariant autoLoad == AutoLoads(iid, kind, old(autoLoad), list[..n])
      {
        assert list[..n + 1] == list[..n] + [staticPlugins[n]];
        AddPlugin(staticPlugins[n]);
      }
      for n := 0 to |external|
        invariant plugins == Registered(iid, kind, old(plugins), list[..|staticPlugins| + n])
        invariant autoLoad == AutoLoads(iid, kind, old(autoLoad), list[..|staticPlugins| + n])
      {
        assert list[..|staticPlugins| + n + 1] == list[..|staticPlugins| + n] + [external[n]];
        AddPlugin(external[n]);
      }
      assert list[..|list|] == list;
    }
  }

  // ---------- What discovery registers ----------

  function Registered(iid: string, kind: string, plugins: map<string, Instance>, list: seq<Plugin>)
    : map<string, Instance>
  {
    if list == [] then plugins
    else
      var before, p := Registered(iid, kind, plugins, list[..|list| - 1]), list[|list| - 1];
      if Accepted(iid, kind, p) then before[p.id := p.instance] else before
  }

  function AutoLoads(iid: string, kind: string, autoLoad: map<string, bool>, list: seq<Plugin>): map<string, bool> {
    if list == [] then autoLoad
    else
      var before, p := AutoLoads(iid, kind, autoLoad, list[..|list| - 1]), list[|list| - 1];
      if Accepted(iid, kind, p) then before[p.id := p.autoLoad] else before
  }

  lemma LastBefore(iid: string, kind: string, list: seq<Plugin>, id: string, i: int)
    requires list != [] && !Carries(iid, kind, id, list[|list| - 1])
    ensures IsLast(iid, kind, list, id, i) <==> IsLast(iid, kind, list[..|list| - 1], id, i)
  {
  }

  /** From an empty registry a name is registered if and only if some accepted plugin carries it, and then
      with the object and the metadata of the last such plugin, so a file overrides a static plugin; the
      metadata map has the same names. */
  lemma {:induction false} DiscoveryIff(iid: string, kind: string, list: seq<Plugin>, id: string)
    ensures id in Registered(iid, kind, map[], list) <==> exists i :: IsLast(iid, kind, list, id, i)
    ensures forall i :: IsLast(iid, kind, list, id, i) ==>
      id in Registered(iid, kind, map[], list) && Registered(iid, kind, map[], list)[id] == list[i].instance
    ensures id in AutoLoads(iid, kind, map[], list) <==> id in Registered(iid, kind, map[], list)
    ensures forall i :: IsLast(iid, kind, list, id, i) ==>
      id in AutoLoads(iid, kind, map[], list) && AutoLoads(iid, kind, map[], list)[id] == list[i].autoLoad
    decreases |list|
  {
    if list == [] {
    } else {
      var n := |list| - 1;
      if Carries(iid, kind, id, list[n]) {
        assert IsLast(iid, kind, list, id, n);
        assert forall i :: IsLast(iid, kind, list, id, i) ==> i == n;
      } else {
        DiscoveryIff(iid, kind, list[..n], id);
        forall i ensures IsLast(iid, kind, list, id, i) <==> IsLast(iid, kind, list[..n], id, i) {
          LastBefore(iid, kind, list, id, i);
        }
      }
    }
  }

  /** In the plugin's own fields: discovery registers an id if and only if some plugin of the list has it, with
      an interface id, metadata, and the interface and type of this registry. */
  lemma RegisteredIff(iid: string, kind: string, list: seq<Plugin>, id: string)
    ensures id in Registered(iid, kind, map[], list) <==>
            exists p :: p in list && p.id == id && p.hasIid && p.hasMetaData && p.iid == iid && p.kind == kind
  {
    DiscoveryIff(iid, kind, list, id);
    if p :| p in list && Carries(iid, kind, id, p) {
      var j :| 0 <= j < |list| && list[j] == p;
      LastExists(iid, kind, list, id, j);
    }
  }

  lemma {:induction false} LastExists(iid: string, kind: string, list: seq<Plugin>, id: string, j: nat)
    requires j < |list| && Carries(iid, kind, id, list[j])
    ensures exists i :: IsLast(iid, kind, list, id, i)
    decreases |list| - j
  {
    if k :| j < k < |list| && Carries(iid, kind, id, list[k]) {
      LastExists(iid, kind, list, id, k);
    } else {
      assert IsLast(iid, kind, list, id, j);
    }
  }

  /** No plugin object is found under two ids. */
  ghost predicate OneIdEach(iid: string, kind: string, list: seq<Plugin>) {
    forall p, q :: p in list && q in list && Carries(iid, kind, p.id, p) && Carries(iid, kind, q.id, q) ==>
      p.instance == q.instance != Null ==> p.id == q.id
  }

  lemma DiscoveredDistinct(iid: string, kind: string, list: seq<Plugin>)
    requires OneIdEach(iid, kind, list)
    ensures Distinct(Registered(iid, kind, map[], list))
  {
    var plugins := Registered(iid, kind, map[], list);
    forall a, b | a in plugins && b in plugins && plugins[a] == plugins[b] && plugins[a] != Null ensures a == b {
      DiscoveryIff(iid, kind, list, a);
      DiscoveryIff(iid, kind, list, b);
      var i :| IsLast(iid, kind, list, a, i);
      var j :| IsLast(iid, kind, list, b, j);
      assert list[i].id == list[j].id;
    }
  }
}
