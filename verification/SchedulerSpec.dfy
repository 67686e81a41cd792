/** What the session manager does with its modules: grouping by startup phase, starting in phase order with
    rollback, and stopping in reverse. */
module SchedulerSpec {
  import opened Traces
  import opened Registry

  type ModulesMap = map<Phase, seq<Instance>>

  function ListOf(modules: ModulesMap, p: Phase): seq<Instance> {
    if p in modules then modules[p] else []
  }

  predicate IsSessionModule(i: Instance) {
    i.Object? && i.isModule
  }

  /** The session modules of phase p, in hash iteration order. */
  function OfPhase(order: seq<string>, plugins: map<string, Instance>, p: Phase): seq<Instance> {
    if order == [] then []
    else
      var before, name := OfPhase(order[..|order| - 1], plugins, p), order[|order| - 1];
      if name in plugins && IsSessionModule(plugins[name]) && plugins[name].phase == p
      then before + [plugins[name]] else before
  }

  /** All modules from phase p on, in the order in which start visits them. */
  function ScheduleFrom(modules: ModulesMap, p: nat): seq<Instance>
    decreases 5 - p
  {
    if p >= 5 then [] else ListOf(modules, p) + ScheduleFrom(modules, p + 1)
  }

  function Schedule(modules: ModulesMap): seq<Instance> {
    ScheduleFrom(modules, 0)
  }

  function NamesOf(order: seq<string>, plugins: map<string, Instance>, list: seq<Instance>): seq<string> {
    seq(|list|, i requires 0 <= i < |list| => NameIn(order, plugins, list[i]))
  }

  // ---------- Walking the schedule one module at a time ----------

  lemma Advance(all: seq<Instance>, seen: seq<Instance>, list: seq<Instance>, i: nat, rest: seq<Instance>)
    requires i < |list| && all == seen + (list[i..] + rest)
    ensures all == (seen + [list[i]]) + (list[i + 1..] + rest)
  {
  }

  /** Entering and leaving the list of one phase. */
  lemma PhaseBounds(modules: ModulesMap, p: Phase)
    ensures var list := ListOf(modules, p); var rest := ScheduleFrom(modules, p + 1);
      ScheduleFrom(modules, p) == list[0..] + rest && list[|list|..] + rest == rest
  {
  }

  lemma NamesGrow(order: seq<string>, plugins: map<string, Instance>, seen: seq<Instance>, m: Instance)
    ensures NamesOf(order, plugins, seen + [m]) == NamesOf(order, plugins, seen) + [NameIn(order, plugins, m)]
  {
  }

  /** How many of the first n start calls succeed before one fails. */
  function Successes(outcome: nat -> bool, n: nat): (k: nat)
    ensures k <= n && (forall i :: 0 <= i < k ==> outcome(i)) && (k < n ==> !outcome(k))
  {
    if n == 0 then 0
    else if Successes(outcome, n - 1) < n - 1 then Successes(outcome, n - 1)
    else if outcome(n - 1) then n else n - 1
  }

  lemma FirstFailure(outcome: nat -> bool, k: nat, n: nat)
    requires k <= n && (forall i :: 0 <= i < k ==> outcome(i)) && (k < n ==> !outcome(k))
    ensures Successes(outcome, n) == k
  {
  }

  // ---------- The start and stop traces ----------

  /** m_loadedModules, and the traces of start and stop calls. */
  datatype Trace = Trace(loaded: seq<Instance>, started: seq<Instance>, stopped: seq<Instance>)

  /** Session::shutdown. */
  function ShutdownAll(t: Trace): Trace {
    t.(loaded := Reverse(t.loaded), stopped := t.stopped + Reverse(t.loaded))
  }

  /** Session::start on the enabled modules in schedule order, with its rollback. */
  function StartAll(t: Trace, run: seq<Instance>, outcome: nat -> bool): Trace {
    var k := Successes(outcome, |run|);
    if k == |run| then t.(loaded := t.loaded + run, started := t.started + run)
    else ShutdownAll(t.(loaded := t.loaded + run[..k], started := t.started + run[..k + 1]))
  }

  ghost predicate PhasesUp(list: seq<Instance>) {
    forall i, j :: 0 <= i < j < |list| && list[i].Object? && list[j].Object? ==> list[i].phase <= list[j].phase
  }

  ghost predicate PhasesDown(list: seq<Instance>) {
    forall i, j :: 0 <= i < j < |list| && list[i].Object? && list[j].Object? ==> list[i].phase >= list[j].phase
  }

  /** One start call: what is kept in the list, and that it happened. */
  function CallStart(t: Trace, m: Instance, succeeds: bool): Trace {
    t.(loaded := if succeeds then t.loaded + [m] else t.loaded, started := t.started + [m])
  }

  /** The start loop from one point on: skip, start and go on, or start and roll back. */
  function Walk(t: Trace, order: seq<string>, plugins: map<string, Instance>, disabled: seq<string>,
                list: seq<Instance>, outcome: nat -> bool, calls: nat): (Trace, bool)
    decreases |list|
  {
    if list == [] then (t, true)
    else if Skipped(order, plugins, disabled, list[0]) then
      Walk(t, order, plugins, disabled, list[1..], outcome, calls)
    else if outcome(calls) then
      Walk(CallStart(t, list[0], true), order, plugins, disabled, list[1..], outcome, calls + 1)
    else (ShutdownAll(CallStart(t, list[0], false)), false)
  }

  /** One turn of the loop within the list of one phase. */
  lemma WalkNext(t: Trace, order: seq<string>, plugins: map<string, Instance>, disabled: seq<string>,
                 list: seq<Instance>, i: nat, rest: seq<Instance>, outcome: nat -> bool, calls: nat)
    requires i < |list|
    ensures var m, after := list[i], list[i + 1..] + rest;
      Walk(t, order, plugins, disabled, list[i..] + rest, outcome, calls) ==
      if Skipped(order, plugins, disabled, m) then Walk(t, order, plugins, disabled, after, outcome, calls)
      else if outcome(calls) then Walk(CallStart(t, m, true), order, plugins, disabled, after, outcome, calls + 1)
      else (ShutdownAll(CallStart(t, m, false)), false)
  {
    var here := list[i..] + rest;
    assert here[0] == list[i] && here[1..] == list[i + 1..] + rest;
  }

  lemma {:induction false} WalkFrom(before: Trace, t: Trace, order: seq<string>, plugins: map<string, Instance>,
                                    disabled: seq<string>, list: seq<Instance>, outcome: nat -> bool,
                                    visited: seq<Instance>)
    requires forall i :: 0 <= i < |visited| ==> outcome(i)
    requires t == before.(loaded := before.loaded + visited, started := before.started + visited)
    ensures var run := visited + EnabledModules(order, plugins, disabled, list);
      Walk(t, order, plugins, disabled, list, outcome, |visited|)
      == (StartAll(before, run, outcome), Successes(outcome, |run|) == |run|)
    decreases |list|
  {
    var run := visited + EnabledModules(order, plugins, disabled, list);
    var k := |visited|;
    if list == [] {
      assert run == visited;
      FirstFailure(outcome, k, k);
    } else if Skipped(order, plugins, disabled, list[0]) {
      WalkFrom(before, t, order, plugins, disabled, list[1..], outcome, visited);
    } else if outcome(k) {
      Associate(visited, list[0], EnabledModules(order, plugins, disabled, list[1..]));
      Associate(before.loaded, list[0], []);
      assert (before.loaded + visited) + [list[0]] == before.loaded + (visited + [list[0]]);
      assert (before.started + visited) + [list[0]] == before.started + (visited + [list[0]]);
      WalkFrom(before, CallStart(t, list[0], true), order, plugins, disabled, list[1..], outcome, visited + [list[0]]);
    } else {
      FirstFailure(outcome, k, |run|);
      assert run[..k] == visited && run[..k + 1] == visited + [list[0]];
      assert (before.started + visited) + [list[0]] == before.started + (visited + [list[0]]);
    }
  }

  /** The loop that skips, starts and rolls back does what StartAll says: it runs the enabled modules up to
      and including the first failure. */
  lemma WalkIsStartAll(t: Trace, order: seq<string>, plugins: map<string, Instance>, disabled: seq<string>,
                       list: seq<Instance>, outcome: nat -> bool)
    ensures var run := EnabledModules(order, plugins, disabled, list);
      Walk(t, order, plugins, disabled, list, outcome, 0)
      == (StartAll(t, run, outcome), Successes(outcome, |run|) == |run|)
  {
    assert t.loaded + [] == t.loaded && t.started + [] == t.started;
    WalkFrom(t, t, order, plugins, disabled, list, outcome, []);
    assert [] + EnabledModules(order, plugins, disabled, list) == EnabledModules(order, plugins, disabled, list);
  }

  lemma PhasesReversed(list: seq<Instance>)
    requires PhasesUp(list)
    ensures PhasesDown(Reverse(list))
  {
  }

  /** The modules a session has started by its end. */
  function StartedInAll(run: seq<Instance>, outcome: nat -> bool): seq<Instance> {
    StartAll(Trace([], [], []), run, outcome).started
  }

  /** The modules it has stopped by then: in start's own rollback, or in one shutdown. */
  function StoppedInAll(run: seq<Instance>, outcome: nat -> bool): seq<Instance> {
    var t := StartAll(Trace([], [], []), run, outcome);
    if Successes(outcome, |run|) == |run| then ShutdownAll(t).stopped else t.stopped
  }

  lemma PrefixOrdered(run: seq<Instance>, n: nat)
    requires NoDup(run) && PhasesUp(run) && n <= |run|
    ensures NoDup(run[..n]) && PhasesUp(run[..n])
    ensures forall i :: n <= i < |run| ==> run[i] !in run[..n]
  {
  }

  lemma StartedPrefix(run: seq<Instance>, outcome: nat -> bool)
    ensures var k := Successes(outcome, |run|);
      StartedInAll(run, outcome) == run[..if k == |run| then k else k + 1]
    ensures StoppedInAll(run, outcome) == Reverse(run[..Successes(outcome, |run|)])
  {
    var k := Successes(outcome, |run|);
    var none: seq<Instance> := [];
    if k == |run| {
      assert none + run == run && run[..k] == run;
      assert StartAll(Trace([], [], []), run, outcome) == Trace(run, run, []);
      assert none + Reverse(run) == Reverse(run);
    } else {
      assert none + run[..k] == run[..k] && none + run[..k + 1] == run[..k + 1];
      assert none + Reverse(run[..k]) == Reverse(run[..k]);
      assert StartAll(Trace([], [], []), run, outcome) == ShutdownAll(Trace(run[..k], run[..k + 1], []));
    }
  }

  lemma ReversedOrdered(list: seq<Instance>)
    requires NoDup(list) && PhasesUp(list)
    ensures NoDup(Reverse(list)) && PhasesDown(Reverse(list))
    ensures forall m :: m in Reverse(list) <==> m in list
  {
    ReverseNoDup(list);
    PhasesReversed(list);
    forall m ensures m in Reverse(list) <==> m in list {
      ReverseMembers(list, m);
    }
  }

  /** Start followed by one shutdown stops exactly the modules whose start succeeded, once each, in exact
      reverse start order and so with non-increasing phases. Start shuts down itself when a module fails:
      then the failing module and every later one is never stopped, and no later one is started. */
  lemma StartStopTrace(run: seq<Instance>, outcome: nat -> bool)
    requires NoDup(run) && PhasesUp(run)
    ensures var k := Successes(outcome, |run|);
      var started, stopped := StartedInAll(run, outcome), StoppedInAll(run, outcome);
      && started == run[..if k == |run| then k else k + 1] && NoDup(started) && PhasesUp(started)
      && stopped == Reverse(started[..k]) && NoDup(stopped) && PhasesDown(stopped)
      && (forall m :: m in stopped <==> m in run[..k])
      && (forall i :: k <= i < |run| ==> run[i] !in stopped)
    ensures Successes(outcome, |run|) == |run| ==> StartAll(Trace([], [], []), run, outcome).stopped == []
  {
    var k := Successes(outcome, |run|);
    var n := if k == |run| then k else k + 1;
    StartedPrefix(run, outcome);
    PrefixOfPrefix(run, n, k);
    PrefixOrdered(run, n);
    StoppedOrdered(run, k, StoppedInAll(run, outcome));
  }

  lemma PrefixOfPrefix(run: seq<Instance>, n: nat, k: nat)
    requires k <= n <= |run|
    ensures run[..n][..k] == run[..k]
  {
  }

  lemma StoppedOrdered(run: seq<Instance>, k: nat, stopped: seq<Instance>)
    requires NoDup(run) && PhasesUp(run) && k <= |run| && stopped == Reverse(run[..k])
    ensures NoDup(stopped) && PhasesDown(stopped)
    ensures forall m :: m in stopped <==> m in run[..k]
    ensures forall i :: k <= i < |run| ==> run[i] !in stopped
  {
    PrefixOrdered(run, k);
    ReversedOrdered(run[..k]);
  }

  /** A second shutdown stops every module again, now in start order, because the list is kept. It does
      nothing if and only if nothing is loaded. */
  lemma SecondShutdown(t: Trace)
    ensures ShutdownAll(ShutdownAll(t)).stopped == ShutdownAll(t).stopped + t.loaded
    ensures ShutdownAll(ShutdownAll(t)).stopped == ShutdownAll(t).stopped <==> t.loaded == []
  {
  }

  // ---------- From discovery to start ----------

  /** The modules are exactly what loadPlugins groups from the registry. */
  ghost predicate Grouped(modules: ModulesMap, order: seq<string>, plugins: map<string, Instance>) {
    forall p: Phase :: ListOf(modules, p) == OfPhase(order, plugins, p)
  }

  lemma {:induction false} OfPhaseMembers(order: seq<string>, plugins: map<string, Instance>, p: Phase, m: Instance)
    ensures m in OfPhase(order, plugins, p) <==>
            IsSessionModule(m) && m.phase == p && exists k :: k in order && k in plugins && plugins[k] == m
    decreases |order|
  {
    if order == [] {
    } else {
      var front, name := order[..|order| - 1], order[|order| - 1];
      OfPhaseMembers(front, plugins, p, m);
      assert order == front + [name];
      assert forall k :: k in order <==> k in front || k == name;
    }
  }

  /** Within a phase the modules are in the hash order of their names. */
  lemma {:induction false} OfPhaseOrder(order: seq<string>, plugins: map<string, Instance>, p: Phase)
    requires forall k :: k in order ==> k in plugins
    ensures Subsequence(OfPhase(order, plugins, p), InstancesOf(order, plugins))
    decreases |order|
  {
    if order == [] {
    } else {
      var front, name := order[..|order| - 1], order[|order| - 1];
      assert order == front + [name];
      OfPhaseOrder(front, plugins, p);
      assert InstancesOf(order, plugins) == InstancesOf(front, plugins) + [plugins[name]];
      SubsequenceAppend(OfPhase(front, plugins, p), InstancesOf(front, plugins), plugins[name]);
    }
  }

  lemma {:induction false} OfPhaseNoDup(order: seq<string>, plugins: map<string, Instance>, p: Phase)
    requires NoDup(order) && Distinct(plugins)
    ensures NoDup(OfPhase(order, plugins, p))
    decreases |order|
  {
    if order == [] {
    } else {
      var front, name := order[..|order| - 1], order[|order| - 1];
      OfPhaseNoDup(front, plugins, p);
      assert name !in front;
      if name in plugins {
        OfPhaseMembers(front, plugins, p, plugins[name]);
      }
    }
  }

  lemma {:induction false} ScheduleOrdered(modules: ModulesMap, order: seq<string>,
                                           plugins: map<string, Instance>, p: nat)
    requires Grouped(modules, order, plugins) && NoDup(order) && Distinct(plugins)
    ensures var s := ScheduleFrom(modules, p);
      && NoDup(s) && PhasesUp(s)
      && forall m :: m in s <==>
           IsSessionModule(m) && m.phase >= p && exists k :: k in order && k in plugins && plugins[k] == m
    decreases 5 - p
  {
    if p >= 5 {
    } else {
      ScheduleOrdered(modules, order, plugins, p + 1);
      var list, rest := ListOf(modules, p), ScheduleFrom(modules, p + 1);
      OfPhaseNoDup(order, plugins, p);
      forall m
        ensures m in list <==>
                IsSessionModule(m) && m.phase == p && exists k :: k in order && k in plugins && plugins[k] == m
      {
        OfPhaseMembers(order, plugins, p, m);
      }
      Joined(list, rest, p);
    }
  }

  lemma Joined(list: seq<Instance>, rest: seq<Instance>, p: Phase)
    requires NoDup(list) && NoDup(rest) && PhasesUp(rest)
    requires forall m :: m in list ==> m.Object? && m.phase == p
    requires forall m :: m in rest ==> m.Object? && m.phase > p
    ensures NoDup(list + rest) && PhasesUp(list + rest)
  {
  }

  lemma {:induction false} EnabledKeeps(order: seq<string>, plugins: map<string, Instance>, disabled: seq<string>,
                                        list: seq<Instance>)
    requires NoDup(list) && PhasesUp(list)
    ensures var e := EnabledModules(order, plugins, disabled, list);
      && NoDup(e) && PhasesUp(e)
      && forall m :: m in e <==> m in list && !Skipped(order, plugins, disabled, m)
  {
    if list == [] {
    } else {
      var rest := list[1..];
      assert list == [list[0]] + rest;
      EnabledKeeps(order, plugins, disabled, rest);
      assert list[0] !in rest;
      var e := EnabledModules(order, plugins, disabled, rest);
      forall i | 0 <= i < |e|
        ensures e[i] != list[0] && (e[i].Object? && list[0].Object? ==> list[0].phase <= e[i].phase)
      {
        assert e[i] in rest;
      }
    }
  }

  lemma NamesFound(order: seq<string>, plugins: map<string, Instance>, s: seq<Instance>)
    requires IsPermutation(order, plugins.Keys) && Distinct(plugins) && NoDup(s)
    requires forall m :: m in s <==> IsSessionModule(m) && exists k :: k in order && k in plugins && plugins[k] == m
    ensures var names := NamesOf(order, plugins, s);
      && NoDup(names)
      && (forall i :: 0 <= i < |s| ==> names[i] in plugins && plugins[names[i]] == s[i])
      && (forall id :: id in names <==> id in plugins && IsSessionModule(plugins[id]))
  {
    var names := NamesOf(order, plugins, s);
    forall i | 0 <= i < |s| ensures names[i] in plugins && plugins[names[i]] == s[i] && IsSessionModule(s[i]) {
      assert s[i] in s;
    }
    forall id ensures id in names <==> id in plugins && IsSessionModule(plugins[id]) {
      if id in plugins && IsSessionModule(plugins[id]) {
        assert id in order;
        assert plugins[id] in s;
        var i :| 0 <= i < |s| && s[i] == plugins[id];
        NameOfRegistered(order, plugins, id);
        assert names[i] == id;
      }
    }
  }

  /** With distinct plugin objects and any hash iteration order: the schedule holds every registered session
      module exactly once, in phase order; the listed names are the ids under which those modules are
      registered; and the modules that start does not skip are exactly the session modules whose id is
      not disabled, each once, in phase order. */
  lemma DiscoveryToStart(modules: ModulesMap, order: seq<string>, plugins: map<string, Instance>, disabled: seq<string>)
    requires Grouped(modules, order, plugins)
    requires IsPermutation(order, plugins.Keys) && Distinct(plugins)
    ensures var s := Schedule(modules); var names := NamesOf(order, plugins, s);
      var run := EnabledModules(order, plugins, disabled, s);
      && NoDup(s) && PhasesUp(s) && NoDup(run) && PhasesUp(run) && NoDup(names)
      && (forall id :: id in names <==> id in plugins && IsSessionModule(plugins[id]))
      && (forall i :: 0 <= i < |s| ==> names[i] in plugins && plugins[names[i]] == s[i])
      && (forall id :: id in plugins && IsSessionModule(plugins[id]) ==>
            (plugins[id] in run <==> id !in disabled))
      && (forall m :: m in run ==> exists id :: id in plugins && plugins[id] == m && IsSessionModule(m))
  {
    var s := Schedule(modules);
    ScheduleOrdered(modules, order, plugins, 0);
    EnabledKeeps(order, plugins, disabled, s);
    NamesFound(order, plugins, s);
    RunIds(order, plugins, disabled, s, EnabledModules(order, plugins, disabled, s));
  }

  lemma RunIds(order: seq<string>, plugins: map<string, Instance>, disabled: seq<string>, s: seq<Instance>,
               run: seq<Instance>)
    requires IsPermutation(order, plugins.Keys) && Distinct(plugins)
    requires forall m :: m in s <==> IsSessionModule(m) && exists k :: k in order && k in plugins && plugins[k] == m
    requires forall m :: m in run <==> m in s && !Skipped(order, plugins, disabled, m)
    ensures forall id :: id in plugins && IsSessionModule(plugins[id]) ==> (plugins[id] in run <==> id !in disabled)
    ensures forall m :: m in run ==> exists id :: id in plugins && plugins[id] == m && IsSessionModule(m)
  {
    forall id | id in plugins && IsSessionModule(plugins[id])
      ensures plugins[id] in run <==> id !in disabled
    {
      assert id in order;
      NameOfRegistered(order, plugins, id);
    }
    forall m | m in run ensures exists id :: id in plugins && plugins[id] == m && IsSessionModule(m) {
      assert m in s;
    }
  }

  /** Every start call of a session is for a module that is not disabled. */
  lemma StartedEnabled(modules: ModulesMap, order: seq<string>, plugins: map<string, Instance>, disabled: seq<string>,
                       outcome: nat -> bool, id: string)
    requires Grouped(modules, order, plugins)
    requires IsPermutation(order, plugins.Keys) && Distinct(plugins) && id in plugins
    ensures var run := EnabledModules(order, plugins, disabled, Schedule(modules));
      && (plugins[id] in StartedInAll(run, outcome) ==> IsSessionModule(plugins[id]) && id !in disabled)
      && (Successes(outcome, |run|) == |run| && IsSessionModule(plugins[id]) && id !in disabled ==>
            plugins[id] in StartedInAll(run, outcome) && plugins[id] in StoppedInAll(run, outcome))
  {
    var run := EnabledModules(order, plugins, disabled, Schedule(modules));
    EnabledId(modules, order, plugins, disabled, id);
    StartedPrefix(run, outcome);
    assert run[..|run|] == run;
    ReverseMembers(run, plugins[id]);
  }

  lemma EnabledId(modules: ModulesMap, order: seq<string>, plugins: map<string, Instance>, disabled: seq<string>,
                  id: string)
    requires Grouped(modules, order, plugins)
    requires IsPermutation(order, plugins.Keys) && Distinct(plugins) && id in plugins
    ensures plugins[id] in EnabledModules(order, plugins, disabled, Schedule(modules)) <==>
            IsSessionModule(plugins[id]) && id !in disabled
  {
    DiscoveryToStart(modules, order, plugins, disabled);
  }

  /** The plugin is the one registered under its id, a session module, and not disabled. */
  ghost predicate Runs(iid: string, kind: string, list: seq<Plugin>, disabled: seq<string>, i: int) {
    && 0 <= i < |list| && list[i].hasIid && list[i].hasMetaData && list[i].iid == iid && list[i].kind == kind
    && (forall j :: i < j < |list| && list[j].id == list[i].id ==>
          !(list[j].hasIid && list[j].hasMetaData && list[j].iid == iid && list[j].kind == kind))
    && list[i].instance.Object? && list[i].instance.isModule && list[i].id !in disabled
  }

  lemma RunsIff(iid: string, kind: string, list: seq<Plugin>, disabled: seq<string>, i: int)
    ensures Runs(iid, kind, list, disabled, i) <==>
            && 0 <= i < |list| && IsLast(iid, kind, list, list[i].id, i)
            && IsSessionModule(list[i].instance) && list[i].id !in disabled
  {
  }

  ghost predicate Enrolled(iid: string, kind: string, list: seq<Plugin>, disabled: seq<string>, m: Instance) {
    exists i :: Runs(iid, kind, list, disabled, i) && list[i].instance == m
  }

  /** The modules that start does not skip are exactly those. */
  lemma RunMembers(iid: string, kind: string, list: seq<Plugin>, order: seq<string>, modules: ModulesMap,
                   disabled: seq<string>, m: Instance)
    requires OneIdEach(iid, kind, list)
    requires IsPermutation(order, Registered(iid, kind, map[], list).Keys)
    requires Grouped(modules, order, Registered(iid, kind, map[], list))
    ensures m in EnabledModules(order, Registered(iid, kind, map[], list), disabled, Schedule(modules)) <==>
            Enrolled(iid, kind, list, disabled, m)
  {
    var plugins := Registered(iid, kind, map[], list);
    DiscoveredDistinct(iid, kind, list);
    DiscoveryToStart(modules, order, plugins, disabled);
    var run := EnabledModules(order, plugins, disabled, Schedule(modules));
    if m in run {
      var id :| id in plugins && plugins[id] == m && IsSessionModule(m);
      DiscoveryIff(iid, kind, list, id);
      var i :| IsLast(iid, kind, list, id, i);
      RunsIff(iid, kind, list, disabled, i);
    }
    forall i | Runs(iid, kind, list, disabled, i) ensures list[i].instance in run {
      RunsIff(iid, kind, list, disabled, i);
      DiscoveryIff(iid, kind, list, list[i].id);
    }
  }

  /** Discovery gives no module twice and keeps the phases in order. */
  lemma RunOrdered(order: seq<string>, plugins: map<string, Instance>, modules: ModulesMap, disabled: seq<string>)
    requires Grouped(modules, order, plugins) && IsPermutation(order, plugins.Keys) && Distinct(plugins)
    ensures var run := EnabledModules(order, plugins, disabled, Schedule(modules)); NoDup(run) && PhasesUp(run)
  {
    DiscoveryToStart(modules, order, plugins, disabled);
  }

  /** The life of a session from its plugin files to its end, for every outcome of the start calls and every
      hash order: the modules are started at most once each, in phase order, and stopped at most once each, in
      exact reverse order of those starts that succeeded; a module is started only if it is the last plugin
      found under an id that is not disabled; and if every start succeeds, every such module is started and
      stopped. */
  lemma SessionLife(iid: string, kind: string, list: seq<Plugin>, order: seq<string>, modules: ModulesMap,
                    disabled: seq<string>, outcome: nat -> bool)
    requires OneIdEach(iid, kind, list)
    requires IsPermutation(order, Registered(iid, kind, map[], list).Keys)
    requires Grouped(modules, order, Registered(iid, kind, map[], list))
    ensures var run := EnabledModules(order, Registered(iid, kind, map[], list), disabled, Schedule(modules));
      var started, stopped, k := StartedInAll(run, outcome), StoppedInAll(run, outcome), Successes(outcome, |run|);
      && NoDup(started) && PhasesUp(started) && NoDup(stopped) && PhasesDown(stopped)
      && |started| == (if k == |run| then k else k + 1) && stopped == Reverse(started[..k])
      && (forall m :: m in started ==> Enrolled(iid, kind, list, disabled, m))
      && (k == |run| ==> forall m :: Enrolled(iid, kind, list, disabled, m) ==> m in started && m in stopped)
  {
    var plugins := Registered(iid, kind, map[], list);
    DiscoveredDistinct(iid, kind, list);
    RunOrdered(order, plugins, modules, disabled);
    var run := EnabledModules(order, plugins, disabled, Schedule(modules));
    StartStopTrace(run, outcome);
    var k := Successes(outcome, |run|);
    assert k == |run| ==> run[..k] == run;
    forall m
      ensures m in StartedInAll(run, outcome) ==> Enrolled(iid, kind, list, disabled, m)
      ensures k == |run| && Enrolled(iid, kind, list, disabled, m) ==> m in run
    {
      RunMembers(iid, kind, list, order, modules, disabled, m);
    }
  }
}
