/** The session module that runs the shell: start with retries, stop, and the crash watchdog. */
module Shell {

  /** QProcess::state. */
  datatype Proc = NotRunning | Starting | Running

  /** How one waitForStarted call ends. */
  datatype Wait = HasStarted | StartFailed | StartTimedOut

  /** What the event loop delivers. A process event happens only in the state that allows it (Handle); a
      crash says whether the process state is already NotRunning when its handler runs. ServiceAppeared is the
      registration of io.liri.Shell. */
  datatype Event = Started | FailedToStart | Crashed(settled: bool) | Exited | OtherError | ServiceAppeared

  /** byStart and byWatchdog count the processes launched by start and by the crash handler. */
  datatype ShellState = ShellState(counter: int, stopping: bool, proc: Proc,
                                   starts: nat, byStart: nat, byWatchdog: nat)

  /** The outcomes of the five attempts of one start; those after the first success are not used. */
  type Waits = w: seq<Wait> | |w| == 5
    witness [StartFailed, StartFailed, StartFailed, StartFailed, StartFailed]

  const FRESH := ShellState(3, false, NotRunning, 0, 0, 0)

  function Launches(s: ShellState): nat {
    s.byStart + s.byWatchdog
  }

  /** QProcess::start from the retry loop: ignored unless no process is there. */
  function Launch(s: ShellState): ShellState {
    if s.proc.NotRunning? then s.(proc := Starting, byStart := s.byStart + 1) else s
  }

  /** ShellPlugin::processCrashed for a crash: at most so many relaunches as the counter allows. */
  function Watchdog(s: ShellState): ShellState {
    if !s.proc.NotRunning? || s.stopping then s
    else if s.counter > 0 then s.(counter := s.counter - 1, proc := Starting, byWatchdog := s.byWatchdog + 1)
    else s.(counter := s.counter - 1)
  }

  function Handle(s: ShellState, e: Event): ShellState {
    match e
    case Started => if s.proc.Starting? then s.(proc := Running) else s
    case FailedToStart => if s.proc.Starting? then s.(proc := NotRunning) else s
    case Crashed(settled) =>
      if !s.proc.Running? then s
      else if settled then Watchdog(s.(proc := NotRunning))
      else Watchdog(s).(proc := NotRunning)
    case Exited => if s.proc.Running? then s.(proc := NotRunning) else s
    case OtherError => s
    case ServiceAppeared => s
  }

  /** The handler of this event quits the loop in which start waits. */
  predicate Quits(s: ShellState, e: Event) {
    || e.ServiceAppeared?
    || (e.FailedToStart? && s.proc.Starting?)
    || (e.Crashed? && s.proc.Running?)
  }

  /** The nested event loop of start; its timer ends it when the events run out. */
  function WaitLoop(s: ShellState, events: seq<Event>): ShellState
    decreases |events|
  {
    if events == [] then s
    else if Quits(s, events[0]) then Handle(s, events[0])
    else WaitLoop(Handle(s, events[0]), events[1..])
  }

  function AfterWait(s: ShellState, w: Wait): ShellState {
    match w
    case HasStarted => s.(proc := Running)
    case StartFailed => if s.proc.Starting? then s.(proc := NotRunning) else s
    case StartTimedOut => s
  }

  /** The retry loop on the outcomes of the attempts that are left. */
  function Retry(s: ShellState, waits: seq<Wait>, events: seq<Event>): ShellState
    decreases |waits|
  {
    if waits == [] then s
    else
      var t := AfterWait(Launch(s), waits[0]);
      if waits[0].HasStarted? then WaitLoop(t, events) else Retry(t, waits[1..], events)
  }

  function StartShell(s: ShellState, installed: bool, waits: Waits, events: seq<Event>): ShellState {
    if !installed then s else Retry(s.(starts := s.starts + 1), waits, events)
  }

  /** ShellPlugin::stop, with the outcome of waitForFinished, which is false when there is no process. A wait
      that succeeds has seen the process end; the handler of a crash it reports runs while stopping. */
  function StopShell(s: ShellState, finished: bool): ShellState {
    if finished then s.(stopping := false, proc := NotRunning) else s.(stopping := false)
  }

  datatype ShellStep =
    | DoStart(installed: bool, waits: Waits, events: seq<Event>)
    | DoStop(finished: bool)
    | DoEvent(e: Event)

  function ShellApply(s: ShellState, step: ShellStep): ShellState {
    match step
    case DoStart(installed, waits, events) => StartShell(s, installed, waits, events)
    case DoStop(finished) => StopShell(s, finished)
    case DoEvent(e) => Handle(s, e)
  }

  function ShellExec(s: ShellState, steps: seq<ShellStep>): ShellState
    decreases |steps|
  {
    if steps == [] then s else ShellExec(ShellApply(s, steps[0]), steps[1..])
  }

  // ---------- The bounds ----------

  /** Between steps: the watchdog spent what the counter lost, and the counter goes below zero at most once
      for each start, when the process of that start is gone. */
  ghost predicate Bounded(s: ShellState) {
    && !s.stopping && s.counter <= 3
    && s.byWatchdog == (if s.counter >= 0 then 3 - s.counter else 3)
    && s.byStart <= 5 * s.starts
    && -s.counter <= s.starts
    && (!s.proc.NotRunning? ==> -s.counter < s.starts && s.starts > 0)
  }

  lemma HandleBounded(s: ShellState, e: Event)
    requires Bounded(s)
    ensures Bounded(Handle(s, e)) && Handle(s, e).byStart == s.byStart && Handle(s, e).starts == s.starts
  {
  }

  lemma {:induction false} WaitLoopBounded(s: ShellState, events: seq<Event>)
    requires Bounded(s)
    ensures var t := WaitLoop(s, events); Bounded(t) && t.byStart == s.byStart && t.starts == s.starts
    decreases |events|
  {
    if events == [] {
    } else {
      HandleBounded(s, events[0]);
      if !Quits(s, events[0]) {
        WaitLoopBounded(Handle(s, events[0]), events[1..]);
      }
    }
  }

  lemma {:induction false} RetryBounded(s: ShellState, waits: seq<Wait>, events: seq<Event>)
    requires Bounded(s) && -s.counter < s.starts && s.starts > 0 && s.byStart + |waits| <= 5 * s.starts
    ensures Bounded(Retry(s, waits, events))
    decreases |waits|
  {
    if waits == [] {
    } else {
      var t := AfterWait(Launch(s), waits[0]);
      if waits[0].HasStarted? {
        WaitLoopBounded(t, events);
      } else {
        RetryBounded(t, waits[1..], events);
      }
    }
  }

  /** Over every run of starts, stops and process events, the shell is launched at most 5 times by each start
      and at most 3 times in all by the watchdog, and the counter never goes below minus the number of
      starts: with one start, 5 + 3 launches and a counter of at least -1. */
  lemma {:induction false} LaunchBound(s: ShellState, steps: seq<ShellStep>)
    requires Bounded(s)
    ensures var t := ShellExec(s, steps);
      && Bounded(t) && t.byWatchdog <= 3
      && Launches(t) <= 5 * t.starts + 3 && t.counter + t.starts >= 0
    decreases |steps|
  {
    if steps == [] {
    } else {
      match steps[0] {
        case DoStart(installed, waits, events) =>
          if installed {
            RetryBounded(s.(starts := s.starts + 1), waits, events);
          }
        case DoStop(finished) =>
        case DoEvent(e) => HandleBounded(s, e);
      }
      LaunchBound(ShellApply(s, steps[0]), steps[1..]);
    }
  }

  // ---------- Stop ----------

  function Events(s: ShellState, events: seq<Event>): ShellState
    decreases |events|
  {
    if events == [] then s else Events(Handle(s, events[0]), events[1..])
  }

  lemma {:induction false} QuietRun(s: ShellState, events: seq<Event>)
    requires s.proc.NotRunning? || s.counter <= 0
    ensures Launches(Events(s, events)) == Launches(s)
    decreases |events|
  {
    if events == [] {
    } else {
      QuietRun(Handle(s, events[0]), events[1..]);
    }
  }

  /** After a stop, no sequence of process events launches the shell again if and only if the wait succeeded,
      or there was no process, or the watchdog has used up its relaunches. When the wait fails the process
      is killed, but its death is reported as a crash only after the stopping flag is cleared. */
  lemma StopIsFinalIff(s: ShellState, finished: bool)
    requires Bounded(s)
    ensures (forall events: seq<Event> :: Launches(Events(StopShell(s, finished), events)) == Launches(s))
            <==> finished || s.proc.NotRunning? || s.counter <= 0
  {
    var t := StopShell(s, finished);
    if finished || s.proc.NotRunning? || s.counter <= 0 {
      forall events: seq<Event> ensures Launches(Events(t, events)) == Launches(s) {
        QuietRun(t, events);
      }
    } else {
      var crash := Crashed(true);
      var events := [Started, crash];
      assert events[1..] == [crash] && [crash][1..] == [];
      var up := Handle(t, Started);
      assert Events(up, [crash]) == Events(Handle(up, crash), []);
      assert Launches(Events(t, events)) == Launches(s) + 1;
    }
  }

  // ---------- Start ----------

  /** The first event that ends the process or the wait is a crash, reported after the process state is
      settled. */
  predicate CrashFirst(events: seq<Event>) {
    events != [] &&
    match events[0]
    case Crashed(settled) => settled
    case Exited => false
    case ServiceAppeared => false
    case _ => CrashFirst(events[1..])
  }

  lemma {:induction false} WaitLoopGone(s: ShellState, events: seq<Event>)
    requires s.proc.NotRunning?
    ensures WaitLoop(s, events) == s
    decreases |events|
  {
    if events == [] {
    } else if !Quits(s, events[0]) {
      WaitLoopGone(s, events[1..]);
    }
  }

  lemma {:induction false} WaitLoopStarting(s: ShellState, events: seq<Event>)
    requires s.proc.Running? && !s.stopping
    ensures WaitLoop(s, events).proc.Starting? <==> CrashFirst(events) && s.counter > 0
    decreases |events|
  {
    if events == [] {
    } else if events[0].Exited? {
      WaitLoopGone(Handle(s, events[0]), events[1..]);
    } else if !Quits(s, events[0]) {
      WaitLoopStarting(s, events[1..]);
    }
  }

  lemma {:induction false} RetryStarting(s: ShellState, waits: seq<Wait>, events: seq<Event>)
    requires !s.proc.Running? && !s.stopping && waits != []
    ensures Retry(s, waits, events).proc.Starting? <==>
            if HasStarted in waits then CrashFirst(events) && s.counter > 0
            else waits[|waits| - 1].StartTimedOut?
    ensures HasStarted !in waits ==> !Retry(s, waits, events).proc.Running?
    decreases |waits|
  {
    var t := AfterWait(Launch(s), waits[0]);
    assert waits == [waits[0]] + waits[1..];
    if waits[0].HasStarted? {
      WaitLoopStarting(t, events);
    } else if |waits| == 1 {
      assert Retry(t, waits[1..], events) == t;
    } else {
      RetryStarting(t, waits[1..], events);
    }
  }

  /** A start that reports failure leaves a shell process under way, which the session will never stop, in
      exactly two cases: an attempt started and a crash ended the wait while the watchdog could still
      relaunch, or no attempt started and the last one timed out instead of failing. */
  lemma FailedStartLeavesProcessIff(s: ShellState, installed: bool, waits: Waits, events: seq<Event>)
    requires s.proc.NotRunning? && !s.stopping
    ensures var t := StartShell(s, installed, waits, events);
      !(installed && HasStarted in waits && t.proc.Running?) && !t.proc.NotRunning? <==>
      installed && if HasStarted in waits then CrashFirst(events) && s.counter > 0 else waits[4].StartTimedOut?
  {
    if installed {
      RetryStarting(s.(starts := s.starts + 1), waits, events);
    }
  }

  /** The first case: the watchdog has launched the shell again. */
  lemma CrashDuringStart(s: ShellState, waits: Waits, events: seq<Event>)
    requires s.proc.NotRunning? && s.counter > 0 && !s.stopping
    requires waits[0].HasStarted? && events != [] && events[0] == Crashed(true)
    ensures var t := StartShell(s, true, waits, events);
      && !(HasStarted in waits && t.proc.Running?) && t.proc == Starting
      && t.byWatchdog == s.byWatchdog + 1 && t.counter == s.counter - 1
  {
  }

  /** The second case, without any crash: five attempts time out on one process that is still starting. */
  lemma TimeoutsDuringStart(waits: Waits, events: seq<Event>)
    requires forall i :: 0 <= i < 5 ==> waits[i].StartTimedOut?
    ensures var t := StartShell(FRESH, true, waits, events);
      !(HasStarted in waits && t.proc.Running?) && t.proc == Starting
  {
    FailedStartLeavesProcessIff(FRESH, true, waits, events);
    RetryStarting(FRESH.(starts := 1), waits, events);
  }

  /** No crash and no exit comes before the shell's bus name appears or the wait ends. */
  predicate Survives(events: seq<Event>) {
    events == [] || events[0].ServiceAppeared?
    || (!events[0].Crashed? && !events[0].Exited? && Survives(events[1..]))
  }

  lemma {:induction false} WaitLoopSurvives(s: ShellState, events: seq<Event>)
    requires s.proc.Running? && !s.stopping
    ensures WaitLoop(s, events).proc.Running? <==> Survives(events)
    decreases |events|
  {
    if events == [] {
    } else if events[0].Exited? {
      WaitLoopGone(Handle(s, events[0]), events[1..]);
    } else if !Quits(s, events[0]) {
      WaitLoopSurvives(s, events[1..]);
    }
  }

  lemma {:induction false} RetryRuns(s: ShellState, waits: seq<Wait>, events: seq<Event>)
    requires !s.proc.Running? && !s.stopping
    ensures Retry(s, waits, events).proc.Running? <==> HasStarted in waits && Survives(events)
    decreases |waits|
  {
    if waits == [] {
    } else {
      var t := AfterWait(Launch(s), waits[0]);
      assert waits == [waits[0]] + waits[1..];
      if waits[0].HasStarted? {
        WaitLoopSurvives(t, events);
      } else {
        RetryRuns(t, waits[1..], events);
      }
    }
  }

  /** A start from a stopped shell leaves it running, and so succeeds, if and only if the shell is installed, some
      attempt starts it, and it neither crashes nor exits before its bus name appears or the wait ends. */
  lemma StartSucceedsIff(s: ShellState, installed: bool, waits: Waits, events: seq<Event>)
    requires s.proc.NotRunning? && !s.stopping
    ensures StartShell(s, installed, waits, events).proc.Running? <==>
            installed && HasStarted in waits && Survives(events)
  {
    if installed {
      RetryRuns(s.(starts := s.starts + 1), waits, events);
    }
  }

  /** How many processes the attempts launch: one for the first attempt and one after each that failed, up to the
      first that started; after a time-out the process of the attempt before is still there. */
  function Attempts(waits: seq<Wait>, free: bool): nat {
    if waits == [] then 0
    else
      (if free then 1 else 0) +
      match waits[0]
      case HasStarted => 0
      case StartFailed => Attempts(waits[1..], true)
      case StartTimedOut => Attempts(waits[1..], false)
  }

  lemma {:induction false} WaitLoopLaunchesNone(s: ShellState, events: seq<Event>)
    ensures WaitLoop(s, events).byStart == s.byStart
    decreases |events|
  {
    if events == [] {
    } else if !Quits(s, events[0]) {
      WaitLoopLaunchesNone(Handle(s, events[0]), events[1..]);
    }
  }

  /** A start launches exactly so many processes itself, whatever the events. */
  lemma {:induction false} StartLaunches(s: ShellState, waits: seq<Wait>, events: seq<Event>)
    requires !s.proc.Running?
    ensures Retry(s, waits, events).byStart == s.byStart + Attempts(waits, s.proc.NotRunning?)
    decreases |waits|
  {
    if waits == [] {
    } else {
      var t := AfterWait(Launch(s), waits[0]);
      if waits[0].HasStarted? {
        WaitLoopLaunchesNone(t, events);
      } else {
        StartLaunches(t, waits[1..], events);
      }
    }
  }

  /** What the process events do, from every state: a start, a failed start and an exit change the process only in
      the state they end; a crash of a running process ends it, and the watchdog launches another if and only if
      the crash is settled, the shell is not being stopped, and the counter, which then falls by one, was
      positive. */
  lemma EventEffects(s: ShellState, settled: bool)
    ensures Handle(s, Started) == if s.proc == Starting then s.(proc := Running) else s
    ensures Handle(s, FailedToStart) == if s.proc == Starting then s.(proc := NotRunning) else s
    ensures Handle(s, Exited) == if s.proc == Running then s.(proc := NotRunning) else s
    ensures Handle(s, OtherError) == s && Handle(s, ServiceAppeared) == s
    ensures s.proc != Running ==> Handle(s, Crashed(settled)) == s
    ensures s.proc == Running ==>
      var t := Handle(s, Crashed(settled)); var relaunches := settled && !s.stopping && s.counter > 0;
      && t.proc == (if relaunches then Starting else NotRunning)
      && t.byWatchdog == s.byWatchdog + (if relaunches then 1 else 0)
      && t.counter == s.counter - (if settled && !s.stopping then 1 else 0)
      && t == s.(proc := t.proc, byWatchdog := t.byWatchdog, counter := t.counter)
  {
  }

  /** So a fresh shell that crashes once started, and whenever the watchdog has started it again, is launched
      three times more and then stays down. */
  lemma FourCrashes(s: ShellState)
    requires s.proc == Running && !s.stopping && s.counter == 3
    ensures var t := Events(s, [Crashed(true), Started, Crashed(true), Started, Crashed(true), Started, Crashed(true)]);
      t.proc == NotRunning && t.byWatchdog == s.byWatchdog + 3 && t.counter == -1
  {
    var crash := Crashed(true);
    var a := Handle(Handle(s, crash), Started);
    var b := Handle(Handle(a, crash), Started);
    var c := Handle(Handle(b, crash), Started);
    EventsTwo(s, crash, Started, [crash, Started, crash, Started, crash]);
    EventsTwo(a, crash, Started, [crash, Started, crash]);
    EventsTwo(b, crash, Started, [crash]);
    assert [crash][1..] == [];
    assert Events(c, [crash]) == Events(Handle(c, crash), []);
  }

  lemma EventsTwo(s: ShellState, e: Event, g: Event, rest: seq<Event>)
    ensures Events(s, [e, g] + rest) == Events(Handle(Handle(s, e), g), rest)
  {
    assert ([e, g] + rest)[1..] == [g] + rest && ([g] + rest)[1..] == rest;
  }

  /** A stop clears its flag again; a wait that succeeds has seen the process end, and one that fails leaves it to
      the kill. */
  lemma StopEffects(s: ShellState, finished: bool)
    ensures var t := ShellApply(s, DoStop(finished));
      && !t.stopping && t.proc == (if finished then NotRunning else s.proc)
      && t == s.(stopping := t.stopping, proc := t.proc)
  {
  }

  class ShellPlugin {
    var watchDogCounter: int
    var stopping: bool
    var proc: Proc

    ghost var starts: nat
    ghost var byStart: nat
    ghost var byWatchdog: nat

    ghost function State(): ShellState
      reads this
    {
      ShellState(watchDogCounter, stopping, proc, starts, byStart, byWatchdog)
    }

    constructor ()
      ensures State() == FRESH && Bounded(State())
    {
      watchDogCounter, stopping, proc := 3, false, NotRunning;
      starts, byStart, byWatchdog := 0, 0, 0;
    }

    method Start(installed: bool, waits: Waits, events: seq<Event>) returns (ok: bool)
      modifies this
      ensures State() == StartShell(old(State()), installed, waits, events)
      ensures ok <==> installed && HasStarted in waits && proc.Running?
      ensures old(proc.NotRunning? && !stopping) ==> (ok <==> installed && HasStarted in waits && Survives(events))
    {
      if !installed {
        return false;
      }
      if proc.NotRunning? && !stopping {
        StartSucceedsIff(State(), installed, waits, events);
      }
      starts := starts + 1;
      ghost var s := State();
      var retries := 5;
      while retries > 0
        invariant 0 <= retries <= 5
        invariant HasStarted !in waits[..5 - retries]
        invariant Retry(State(), waits[5 - retries..], events) == Retry(s, waits, events)
      {
        var attempt := 5 - retries;
        retries := retries - 1;
        assert waits[attempt..][0] == waits[attempt] && waits[attempt..][1..] == waits[attempt + 1..];
        LaunchProcess();
        var up := WaitForStarted(waits[attempt]);
        if up {
          assert waits[attempt] in waits;
          RunLoop(events);
          return proc.Running?;
        }
      }
      return false;
    }

    method WaitForStarted(w: Wait) returns (up: bool)
      modifies this`proc
      ensures State() == AfterWait(old(State()), w) && up == w.HasStarted?
    {
      match w
      case HasStarted =>
        proc := Running;
        return true;
      case StartFailed =>
        if proc.Starting? {
          proc := NotRunning;
        }
        return false;
      case StartTimedOut =>
        return false;
    }

    method LaunchProcess()
      modifies this`proc, this`byStart
      ensures State() == Launch(old(State()))
    {
      if proc.NotRunning? {
        proc := Starting;
        byStart := byStart + 1;
      }
    }

    method RunLoop(events: seq<Event>)
      modifies this`proc, this`watchDogCounter, this`byWatchdog
      ensures State() == WaitLoop(old(State()), events)
    {
      var i := 0;
      while i < |events|
        invariant i <= |events|
        invariant WaitLoop(State(), events[i..]) == WaitLoop(old(State()), events)
      {
        assert events[i..][1..] == events[i + 1..];
        var quit := Quits(ShellState(watchDogCounter, stopping, proc, 0, 0, 0), events[i]);
        HandleEvent(events[i]);
        if quit {
          return;
        }
        i := i + 1;
      }
    }

    method HandleEvent(e: Event)
      modifies this`proc, this`watchDogCounter, this`byWatchdog
      ensures State() == Handle(old(State()), e)
    {
      match e
      case Started =>
        if proc.Starting? {
          proc := Running;
        }
      case FailedToStart =>
        if proc.Starting? {
          proc := NotRunning;
        }
      case Crashed(settled) =>
        if proc.Running? {
          if settled {
            proc := NotRunning;
            ProcessCrashed();
          } else {
            ProcessCrashed();
            proc := NotRunning;
          }
        }
      case Exited =>
        if proc.Running? {
          proc := NotRunning;
        }
      case OtherError =>
      case ServiceAppeared =>
    }

    method ProcessCrashed()
      modifies this`proc, this`watchDogCounter, this`byWatchdog
      ensures State() == Watchdog(old(State()))
    {
      if proc.NotRunning? && !stopping {
        watchDogCounter := watchDogCounter - 1;
        if watchDogCounter + 1 > 0 {
          proc := Starting;
          byWatchdog := byWatchdog + 1;
        }
      }
    }

    /** crashes: the wait reports a crash of the process, as it does when the signal kills it. */
    method Stop(finished: bool, crashes: bool)
      modifies this`stopping, this`proc, this`watchDogCounter, this`byWatchdog
      ensures State() == StopShell(old(State()), finished)
    {
      stopping := true;
      if finished {
        proc := NotRunning;
        if crashes {
          ProcessCrashed();
        }
      }
      stopping := false;
    }
  }
}
