/** What is asked of logind over a run: the contents of every request, and the requests in flight, the link and
    the lock screen as functions of the steps alone. */
module LockRequests {
  import opened LockSpec
  import opened LockInvariants
  import opened LockLeaks

  // ---------- One step ----------

  /** A connected Inhibit call asks logind to block idling, and nothing else, for this application and reason;
      without the link it asks nothing. In both cases it hands out the counter as the cookie for the two. */
  lemma InhibitAsks(s: Locks, who: string, why: string)
    ensures var t := Apply(s, StepInhibit(who, why));
      && t.pending == (if s.connected then s.pending + multiset{Request(who, why, {Idle}, Block)} else s.pending)
      && t.inhibit == s.inhibit[s.seed := Entry(who, why)] && t.cookies == s.cookies + [s.seed]
      && t == s.(pending := t.pending, inhibit := t.inhibit, cookies := t.cookies, seed := t.seed)
  {
  }

  // ---------- The contents of requests ----------

  /** What may be asked under a name: the manager's three requests under its own names, and blocking of idling
      under every other. */
  ghost predicate Proper(r: Request) {
    if r.who == "Liri/PowerButton" then r.what == {PowerKey, SuspendKey, HibernateKey} && r.mode == Block
    else if r.who == "Liri/Sleep" then r.what == {Shutdown, Sleep} && r.mode == Delay
    else if r.who == "Liri/Lid" then r.what == {LidSwitch} && r.mode == Block
    else r.what == {Idle} && r.mode == Block
  }

  ghost predicate AllProper(s: Locks) {
    forall r :: r in s.pending ==> Proper(r)
  }

  lemma UnlockProper(s: Locks)
    requires AllProper(s)
    ensures AllProper(Unlock(s))
  {
    if s.connected {
      UnlockAsks(s);
      assert Proper(POWER_BUTTON) && Proper(SLEEP) && Proper(LID);
    }
  }

  lemma UnInhibitKeeps(s: Locks, cookie: nat)
    ensures var t := UnInhibit(s, cookie); t.pending == s.pending && t.connected == s.connected && t.active == s.active
  {
    CloseEffect(s, FdOf(s, cookie));
  }

  /** A step that handles a cookie's return, a grant or a lock signal. */
  predicate Releases(step: Step) {
    step.StepUnInhibit? || step.StepGranted? || step.StepLock?
  }

  lemma ReleasesKeep(s: Locks, step: Step)
    requires Releases(step)
    ensures Apply(s, step).pending == if step.StepGranted? then s.pending - multiset{step.r} else s.pending
    ensures Apply(s, step).connected == s.connected && Apply(s, step).active == (s.active || step.StepLock?)
  {
    match step
    case StepUnInhibit(cookie) => UnInhibitKeeps(s, cookie);
    case StepGranted(r, fd) => GrantTook(s, r, fd);
    case StepLock => DrainForKeeps(s, |s.fds|);
  }

  lemma {:induction false} DrainForKeeps(s: Locks, n: nat)
    ensures var t := DrainFor(s, n); t.pending == s.pending && t.connected == s.connected && t.active == s.active
    decreases n
  {
    if n == 0 || s.fds == map[] {
    } else {
      DrainForKeeps(DrainOne(s), n - 1);
    }
  }

  lemma StepProper(s: Locks, step: Step)
    requires AllProper(s) && (step.StepInhibit? ==> !LiriName(step.who))
    ensures AllProper(Apply(s, step))
  {
    match step
    case StepInhibit(who, why) => InhibitAsks(s, who, why);
    case StepUnlock => UnlockProper(s);
    case _ =>
      if Releases(step) {
        ReleasesKeep(s, step);
      }
  }

  lemma {:induction false} ProperRun(s: Locks, steps: seq<Step>)
    requires AllProper(s) && forall i :: 0 <= i < |steps| && steps[i].StepInhibit? ==> !LiriName(steps[i].who)
    ensures AllProper(Exec(s, steps))
    decreases |steps|
  {
    if steps == [] {
    } else {
      StepProper(s, steps[0]);
      ProperRun(Apply(s, steps[0]), steps[1..]);
    }
  }

  /** On every run from startup in which no application takes a name of the manager, every request in flight
      has the contents that go with its name; so a request blocks idling if and only if it is an application's. */
  lemma RequestContents(steps: seq<Step>, r: Request)
    requires forall i :: 0 <= i < |steps| && steps[i].StepInhibit? ==> !LiriName(steps[i].who)
    requires r in Exec(INITIAL, steps).pending
    ensures Proper(r) && (Idle in r.what <==> !LiriName(r.who))
  {
    ProperRun(INITIAL, steps);
    BlocksIdle(r);
  }

  lemma BlocksIdle(r: Request)
    requires Proper(r)
    ensures Idle in r.what <==> !LiriName(r.who)
  {
  }

  // ---------- The requests in flight ----------

  /** What one step asks for, given whether the link is up. */
  function AskedBy(connected: bool, step: Step): multiset<Request> {
    if !connected then multiset{}
    else
      match step
      case StepInhibit(who, why) => multiset{Request(who, why, {Idle}, Block)}
      case StepUnlock =>
        multiset{Request("Liri/PowerButton", "Liri handles the power button itself",
                         {PowerKey, SuspendKey, HibernateKey}, Block),
                 Request("Liri/Sleep", "Liri needs to logout before shutdown and lock the screen before sleep",
                         {Shutdown, Sleep}, Delay),
                 Request("Liri/Lid", "Liri wants to handle when the lid is closed", {LidSwitch}, Block)}
      case _ => multiset{}
  }

  function LinkAfter(connected: bool, step: Step): bool {
    if step.StepLink? then step.up else connected
  }

  /** What the steps ask for, given whether the link is up at first. */
  function Asked(connected: bool, steps: seq<Step>): multiset<Request>
    decreases |steps|
  {
    if steps == [] then multiset{}
    else AskedBy(connected, steps[0]) + Asked(LinkAfter(connected, steps[0]), steps[1..])
  }

  /** The request that one step answers, with a lock or with an error. */
  function AnsweredBy(step: Step): multiset<Request> {
    if step.StepGranted? || step.StepRefused? then multiset{step.r} else multiset{}
  }

  function Answered(steps: seq<Step>): multiset<Request> {
    if steps == [] then multiset{} else AnsweredBy(steps[0]) + Answered(steps[1..])
  }

  lemma AskedByUnlock(s: Locks)
    ensures Unlock(s).pending == s.pending + AskedBy(s.connected, StepUnlock)
  {
    if s.connected {
      UnlockAsks(s);
    }
  }

  lemma StepLedger(s: Locks, step: Step)
    requires Enabled(s, step)
    ensures Apply(s, step).pending + AnsweredBy(step) == s.pending + AskedBy(s.connected, step)
    ensures Apply(s, step).connected == LinkAfter(s.connected, step)
  {
    match step
    case StepInhibit(who, why) => InhibitAsks(s, who, why);
    case StepUnlock => AskedByUnlock(s);
    case StepGranted(_, _) => AnswerLedger(s, step);
    case StepRefused(_) => AnswerLedger(s, step);
    case _ =>
      if Releases(step) {
        ReleasesKeep(s, step);
      }
  }

  lemma AnswerLedger(s: Locks, step: Step)
    requires (step.StepGranted? || step.StepRefused?) && step.r in s.pending
    ensures Apply(s, step).pending + multiset{step.r} == s.pending && Apply(s, step).connected == s.connected
  {
    if step.StepGranted? {
      ReleasesKeep(s, step);
    }
    assert multiset{step.r} <= s.pending;
  }

  /** Every request is answered at most once: what is in flight at the end of a run, together with what was
      answered, is what was in flight at its beginning and what its steps asked for. */
  lemma {:induction false} RequestsRun(s: Locks, steps: seq<Step>)
    requires Legal(s, steps)
    ensures Exec(s, steps).pending + Answered(steps) == s.pending + Asked(s.connected, steps)
    decreases |steps|
  {
    if steps == [] {
    } else {
      var t := Apply(s, steps[0]);
      StepLedger(s, steps[0]);
      RequestsRun(t, steps[1..]);
      BagsJoin(Exec(s, steps).pending, t.pending, s.pending, AnsweredBy(steps[0]), Answered(steps[1..]),
               AskedBy(s.connected, steps[0]), Asked(t.connected, steps[1..]));
    }
  }

  lemma BagsJoin(e: multiset<Request>, t: multiset<Request>, s: multiset<Request>, x: multiset<Request>,
                 y: multiset<Request>, a: multiset<Request>, b: multiset<Request>)
    requires t + x == s + a && e + y == t + b
    ensures e + (x + y) == s + (a + b)
  {
    assert e + (x + y) == (t + b) + x == (t + x) + b;
  }

  // ---------- The link and the lock screen ----------

  /** The lock screen is up after a lock signal and before sleep, and down after an unlock signal; resuming
      from sleep leaves it as it is. */
  predicate Decides(step: Step) {
    step.StepLock? || step.StepUnlock? || step == StepPrepareForSleep(true)
  }

  lemma StepScreen(s: Locks, step: Step)
    ensures Apply(s, step).active == if Decides(step) then !step.StepUnlock? else s.active
    ensures Apply(s, step).connected == if step.StepLink? then step.up else s.connected
  {
    if Releases(step) {
      ReleasesKeep(s, step);
    } else if step.StepUnlock? {
      UnlockFields(s);
    }
  }

  lemma {:induction false} ScreenKept(s: Locks, steps: seq<Step>)
    requires forall i :: 0 <= i < |steps| ==> !Decides(steps[i])
    ensures Exec(s, steps).active == s.active
    decreases |steps|
  {
    if steps == [] {
    } else {
      StepScreen(s, steps[0]);
      ScreenKept(Apply(s, steps[0]), steps[1..]);
    }
  }

  /** At the end of every run the lock screen is up if and only if the last step that decides it was a lock
      signal or a sleep, and not an unlock signal. */
  lemma {:induction false} ScreenRun(s: Locks, steps: seq<Step>, i: nat)
    requires i < |steps| && Decides(steps[i]) && forall j :: i < j < |steps| ==> !Decides(steps[j])
    ensures Exec(s, steps).active <==> steps[i] == StepLock || steps[i] == StepPrepareForSleep(true)
    decreases i
  {
    StepScreen(s, steps[0]);
    if i == 0 {
      ScreenKept(Apply(s, steps[0]), steps[1..]);
    } else {
      ScreenRun(Apply(s, steps[0]), steps[1..], i - 1);
    }
  }
}
