/** The two session modules that undo at stop what they did at start: autostart entries and services. */
module LifoModules {
  import opened Traces
  import opened Wrappers

  /** What autostart asks of the launcher, and services of the kernel: Opened when an entry is launched or a
      process id recorded; UndoBegun and Undone are the calls that undo it (autostart needs only Undone). */
  datatype LifoCall<T> = Opened(x: T) | UndoBegun(x: T) | Undone(x: T)

  /** Replays calls on a stack: Undone(x) must undo the most recent x that is still open. With pairs, it must
      also come straight after UndoBegun(x). None if the calls do not nest. */
  function Replay<T(==)>(calls: seq<LifoCall<T>>, pairs: bool): Option<seq<T>> {
    if calls == [] then Some([])
    else
      var front, c := calls[..|calls| - 1], calls[|calls| - 1];
      var before := Replay(front, pairs);
      if before.None? then None
      else
        var stack := before.value;
        match c
        case Opened(x) => Some(stack + [x])
        case UndoBegun(x) => if pairs && stack != [] && stack[|stack| - 1] == x then Some(stack) else None
        case Undone(x) =>
          if stack != [] && stack[|stack| - 1] == x && (pairs ==> front != [] && front[|front| - 1] == UndoBegun(x))
          then Some(stack[..|stack| - 1]) else None
  }

  function UndoOne<T>(x: T, pairs: bool): seq<LifoCall<T>> {
    if pairs then [UndoBegun(x), Undone(x)] else [Undone(x)]
  }

  /** The calls that undo these entries, in this order. */
  function Undo<T>(list: seq<T>, pairs: bool): seq<LifoCall<T>> {
    if list == [] then [] else Undo(list[..|list| - 1], pairs) + UndoOne(list[|list| - 1], pairs)
  }

  lemma ReplayOpen<T>(calls: seq<LifoCall<T>>, pairs: bool, x: T)
    requires Replay(calls, pairs).Some?
    ensures Replay(calls + [Opened(x)], pairs) == Some(Replay(calls, pairs).value + [x])
  {
  }

  lemma ReplayOne<T>(calls: seq<LifoCall<T>>, pairs: bool, stack: seq<T>, x: T)
    requires Replay(calls, pairs) == Some(stack + [x])
    ensures Replay(calls + UndoOne(x, pairs), pairs) == Some(stack)
  {
    assert (stack + [x])[..|stack|] == stack;
    if pairs {
      var mid := calls + [UndoBegun(x)];
      assert mid[..|mid| - 1] == calls;
      assert (mid + [Undone(x)])[..|mid|] == mid;
      assert Replay(mid, pairs) == Some(stack + [x]);
      assert calls + UndoOne(x, pairs) == mid + [Undone(x)];
    } else {
      assert (calls + [Undone(x)])[..|calls|] == calls;
    }
  }

  lemma UndoSplit<T>(calls: seq<LifoCall<T>>, list: seq<T>, x: T, pairs: bool)
    ensures calls + Undo(list + [x], pairs) == (calls + Undo(list, pairs)) + UndoOne(x, pairs)
  {
    assert (list + [x])[..|list|] == list;
  }

  lemma NextUndo<T>(stack: seq<T>, reversed: seq<T>, n: nat)
    requires 0 < n <= |stack| == |reversed| && reversed[n - 1] == stack[|stack| - n]
    ensures reversed[..n] == reversed[..n - 1] + [stack[|stack| - n]]
    ensures stack[..|stack| - (n - 1)] == stack[..|stack| - n] + [stack[|stack| - n]]
  {
    TakeOneMore(reversed, n);
    TakeOneMore(stack, |stack| - (n - 1));
  }

  lemma UndoNone<T>(calls: seq<LifoCall<T>>, pairs: bool, stack: seq<T>, reversed: seq<T>)
    ensures calls + Undo(reversed[..0], pairs) == calls && stack[..|stack| - 0] == stack
  {
    assert reversed[..0] == [];
  }

  /** Undoing the last n open entries, latest first, leaves the others open. */
  lemma {:induction false} ReplayUndo<T>(calls: seq<LifoCall<T>>, pairs: bool, stack: seq<T>, n: nat)
    requires Replay(calls, pairs) == Some(stack) && n <= |stack|
    ensures Replay(calls + Undo(Reverse(stack)[..n], pairs), pairs) == Some(stack[..|stack| - n])
  {
    if n == 0 {
      UndoNone(calls, pairs, stack, Reverse(stack));
    } else {
      var x, rest := stack[|stack| - n], stack[..|stack| - n];
      ReplayUndo(calls, pairs, stack, n - 1);
      var list := Reverse(stack)[..n - 1];
      NextUndo(stack, Reverse(stack), n);
      UndoSplit(calls, list, x, pairs);
      ReplayOne(calls + Undo(list, pairs), pairs, rest, x);
    }
  }

  // ---------- Runs of start and stop ----------

  /** What one of these modules keeps, and the calls it has made. */
  datatype Lifo<T> = Lifo(open: seq<T>, calls: seq<LifoCall<T>>)

  function OpenAll<T>(s: Lifo<T>, list: seq<T>): Lifo<T>
    decreases |list|
  {
    if list == [] then s
    else OpenAll(Lifo(s.open + [list[0]], s.calls + [Opened(list[0])]), list[1..])
  }

  /** Start appends every entry to the list and makes one call for each, in order. */
  lemma {:induction false} OpenAllOpens<T>(s: Lifo<T>, list: seq<T>)
    ensures OpenAll(s, list).open == s.open + list
    ensures var calls := OpenAll(s, list).calls;
      |calls| == |s.calls| + |list| && s.calls <= calls
      && forall i :: 0 <= i < |list| ==> calls[|s.calls| + i] == Opened(list[i])
    decreases |list|
  {
    if list == [] {
    } else {
      OpenAllOpens(Lifo(s.open + [list[0]], s.calls + [Opened(list[0])]), list[1..]);
    }
  }

  lemma OpenCons<T>(s: Lifo<T>, x: T, rest: seq<T>)
    ensures OpenAll(s, [x] + rest) == OpenAll(Lifo(s.open + [x], s.calls + [Opened(x)]), rest)
  {
  }

  function StopAll<T>(s: Lifo<T>, pairs: bool): Lifo<T> {
    Lifo([], s.calls + Undo(Reverse(s.open), pairs))
  }

  /** Start opens a list of entries; Stop undoes. */
  datatype LifoStep<T> = StartStep(list: seq<T>) | StopStep

  function LifoApply<T>(s: Lifo<T>, pairs: bool, step: LifoStep<T>): Lifo<T> {
    match step
    case StartStep(list) => OpenAll(s, list)
    case StopStep => StopAll(s, pairs)
  }

  function LifoExec<T>(s: Lifo<T>, pairs: bool, steps: seq<LifoStep<T>>): Lifo<T>
    decreases |steps|
  {
    if steps == [] then s else LifoExec(LifoApply(s, pairs, steps[0]), pairs, steps[1..])
  }

  lemma {:induction false} OpenAllReplays<T>(s: Lifo<T>, pairs: bool, list: seq<T>)
    requires Replay(s.calls, pairs) == Some(s.open)
    ensures Replay(OpenAll(s, list).calls, pairs) == Some(OpenAll(s, list).open)
    decreases |list|
  {
    if list == [] {
    } else {
      ReplayOpen(s.calls, pairs, list[0]);
      OpenAllReplays(Lifo(s.open + [list[0]], s.calls + [Opened(list[0])]), pairs, list[1..]);
    }
  }

  /** Over any sequence of starts and stops the calls nest: each entry is undone at most once, after every
      entry opened later, and a stop undoes exactly what was opened since the last stop and leaves nothing
      open. For services each undo is the pair of signals. */
  lemma {:induction false} LifoRun<T>(s: Lifo<T>, pairs: bool, steps: seq<LifoStep<T>>)
    requires Replay(s.calls, pairs) == Some(s.open)
    ensures var t := LifoExec(s, pairs, steps);
      && Replay(t.calls, pairs) == Some(t.open)
      && Replay(StopAll(t, pairs).calls, pairs) == Some([])
    decreases |steps|
  {
    if steps == [] {
      StopReplays(s, pairs);
    } else {
      match steps[0] {
        case StartStep(list) => OpenAllReplays(s, pairs, list);
        case StopStep => StopReplays(s, pairs);
      }
      LifoRun(LifoApply(s, pairs, steps[0]), pairs, steps[1..]);
    }
  }

  lemma StopReplays<T>(s: Lifo<T>, pairs: bool)
    requires Replay(s.calls, pairs) == Some(s.open)
    ensures Replay(StopAll(s, pairs).calls, pairs) == Some([])
  {
    ReplayUndo(s.calls, pairs, s.open, |s.open|);
    assert Reverse(s.open)[..|s.open|] == Reverse(s.open);
  }

  // ---------- The two modules ----------

  /** An autostart entry; selected stands for the visibility, suitability and systemd tests. */
  datatype DesktopEntry = DesktopEntry(fileName: string, selected: bool)

  function Selected(entries: seq<DesktopEntry>): seq<string> {
    if entries == [] then []
    else if entries[0].selected then [entries[0].fileName] + Selected(entries[1..])
    else Selected(entries[1..])
  }

  /** The selected entries, in order: one more entry adds its file at the end if it is selected, and nothing
      otherwise. */
  lemma {:induction false} SelectedGrows(entries: seq<DesktopEntry>, e: DesktopEntry)
    ensures Selected([]) == []
    ensures Selected(entries + [e]) == Selected(entries) + (if e.selected then [e.fileName] else [])
    decreases |entries|
  {
    if entries == [] {
      assert [] + [e] == [e] && [e][1..] == [];
    } else {
      assert (entries + [e])[1..] == entries[1..] + [e];
      SelectedGrows(entries[1..], e);
    }
  }

  class AutostartPlugin {
    var desktopFiles: seq<string>
    ghost var calls: seq<LifoCall<string>>

    ghost function State(): Lifo<string>
      reads this
    {
      Lifo(desktopFiles, calls)
    }

    constructor ()
      ensures State() == Lifo([], [])
    {
      desktopFiles, calls := [], [];
    }

    method Start(entries: seq<DesktopEntry>)
      modifies this
      ensures State() == LifoApply(old(State()), false, StartStep(Selected(entries)))
    {
      for i := 0 to |entries|
        invariant OpenAll(State(), Selected(entries[i..])) == OpenAll(old(State()), Selected(entries))
      {
        assert entries[i..][1..] == entries[i + 1..];
        OpenCons(State(), entries[i].fileName, Selected(entries[i + 1..]));
        if !entries[i].selected {
          continue;
        }
        desktopFiles := desktopFiles + [entries[i].fileName];
        calls := calls + [Opened(entries[i].fileName)];
      }
    }

    method Stop()
      modifies this
      ensures State() == LifoApply(old(State()), false, StopStep)
    {
      desktopFiles := Reverse(desktopFiles);
      for i := 0 to |desktopFiles|
        invariant desktopFiles == Reverse(old(desktopFiles))
        invariant calls == old(calls) + Undo(desktopFiles[..i], false)
      {
        assert desktopFiles[..i + 1][..i] == desktopFiles[..i];
        calls := calls + [Undone(desktopFiles[i])];
      }
      assert desktopFiles[..|desktopFiles|] == desktopFiles;
      desktopFiles := [];
    }
  }

  /** The answers to the bus calls of startService. */
  datatype ServiceReplies = ServiceReplies(registered: Option<bool>, started: bool, pid: Option<nat>)

  /** The process id that startService records, if any. */
  function Recorded(r: ServiceReplies): seq<nat> {
    if (r.registered == Some(true) || r.started) && r.pid.Some? then [r.pid.value] else []
  }

  class ServicesPlugin {
    var pids: seq<nat>
    ghost var calls: seq<LifoCall<nat>>

    ghost function State(): Lifo<nat>
      reads this
    {
      Lifo(pids, calls)
    }

    constructor ()
      ensures State() == Lifo([], [])
    {
      pids, calls := [], [];
    }

    method StartService(r: ServiceReplies)
      modifies this
      ensures State() == LifoApply(old(State()), true, StartStep(Recorded(r)))
      ensures pids == old(pids) +
        (if r.pid.Some? && (r.registered == Some(true) || r.started) then [r.pid.value] else [])
    {
      if r.pid.Some? {
        OpenCons(State(), r.pid.value, []);
        assert [r.pid.value] + [] == [r.pid.value];
      }
      if r.registered == Some(true) {
        if r.pid.Some? {
          pids := pids + [r.pid.value];
          calls := calls + [Opened(r.pid.value)];
        }
        return;
      }
      if r.started {
        if r.pid.Some? {
          pids := pids + [r.pid.value];
          calls := calls + [Opened(r.pid.value)];
        }
      }
    }

    /** Signals each process with TERM (UndoBegun) and KILL (Undone) and erases it from the front of the list. */
    method Stop()
      modifies this
      ensures State() == LifoApply(old(State()), true, StopStep)
    {
      pids := Reverse(pids);
      ghost var all, n := pids, 0;
      assert all[..0] == [];
      while pids != []
        invariant n <= |all| && pids == all[n..]
        invariant calls == old(calls) + Undo(all[..n], true)
        decreases |pids|
      {
        var pid := pids[0];
        assert all[..n + 1][..n] == all[..n] && all[n] == pid;
        calls := calls + [UndoBegun(pid)];
        calls := calls + [Undone(pid)];
        assert calls == old(calls) + Undo(all[..n], true) + UndoOne(pid, true);
        pids := pids[1..];
        n := n + 1;
      }
      assert all[..n] == all;
    }
  }
}
