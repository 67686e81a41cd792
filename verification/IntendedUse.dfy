/** The inhibitor-lock protocol in its intended use, from startup to a lock signal: no lock leaks. */
module IntendedUse {
  import opened KeyOrder
  import opened LockSpec
  import opened LockInvariants
  import opened LockLeaks
  import opened LockCookies

  /** An application asks under its own name, which is not empty, and gives its cookie back while the link is
      up; and an unlock signal finds the manager without locks or requests of its own. */
  ghost predicate Intended(s: Locks, step: Step) {
    && OwnName(s, step)
    && (step.StepInhibit? ==> step.who != "")
    && (step.StepUnInhibit? && FdOf(s, step.cookie) != -1 ==> s.connected)
    && (step.StepUnlock? && s.connected ==> NoLiri(s))
  }

  ghost predicate IntendedRun(s: Locks, steps: seq<Step>)
    decreases |steps|
  {
    steps == [] || (Intended(s, steps[0]) && IntendedRun(Apply(s, steps[0]), steps[1..]))
  }

  lemma {:induction false} OwnNames(s: Locks, steps: seq<Step>)
    requires IntendedRun(s, steps)
    ensures OwnNameRun(s, steps)
    decreases |steps|
  {
    if steps == [] {
    } else {
      OwnNames(Apply(s, steps[0]), steps[1..]);
    }
  }

  ghost predicate OwnedBy(s: Locks, c: nat, who: string) {
    c in s.inhibit && c in s.inhibitFd && s.inhibit[c].who == who
  }

  /** Every index entry is the manager's or belongs to a live cookie, and no cookie has the empty name. */
  ghost predicate Owned(s: Locks) {
    && (forall c :: c in s.inhibit ==> s.inhibit[c].who != "")
    && (forall who :: who in s.fds && !LiriName(who) ==> exists c :: OwnedBy(s, c, who))
  }

  /** A request of the manager is in flight once, and alone under its name, which holds no lock yet. */
  ghost predicate Single(s: Locks, r: Request) {
    && s.pending[r] == 1 && r.who !in s.fds
    && forall q :: q in s.pending && q.who == r.who ==> q == r
  }

  ghost predicate LiriOnce(s: Locks) {
    forall r :: r in s.pending && LiriName(r.who) ==> Single(s, r)
  }

  ghost predicate Tidy(s: Locks) {
    Agree(s) && Expected(s) && Owned(s) && LiriOnce(s)
  }

  lemma NoEmptyName(s: Locks)
    requires Owned(s)
    ensures "" !in s.fds
  {
    assert forall c :: !OwnedBy(s, c, "");
  }

  /** Each request in flight finds its owner name free. */
  lemma NameIsFree(s: Locks, r: Request)
    requires Tidy(s) && r in s.pending
    ensures r.who !in s.fds
  {
    if LiriName(r.who) {
      assert Single(s, r);
    } else {
      var c :| Awaits(s, c, r);
      assert forall d :: !OwnedBy(s, d, r.who);
    }
  }

  lemma TidyInhibit(s: Locks, who: string, why: string)
    requires Owned(s) && LiriOnce(s) && s.seed !in s.inhibit && who != "" && !LiriName(who)
    ensures Owned(Inhibit(s, who, why)) && LiriOnce(Inhibit(s, who, why))
  {
    var t := Inhibit(s, who, why);
    forall a | a in t.fds && !LiriName(a) ensures exists c :: OwnedBy(t, c, a) {
      var c :| OwnedBy(s, c, a);
      assert OwnedBy(t, c, a);
    }
    forall r | r in t.pending && LiriName(r.who) ensures Single(t, r) {
      assert Single(s, r);
    }
  }

  lemma OwnedKept(s: Locks, t: Locks)
    requires Owned(s) && t.inhibit == s.inhibit && t.inhibitFd == s.inhibitFd && t.fds == s.fds
    ensures Owned(t)
  {
    forall a | a in t.fds && !LiriName(a) ensures exists c :: OwnedBy(t, c, a) {
      var c :| OwnedBy(s, c, a);
      assert OwnedBy(t, c, a);
    }
  }

  lemma LiriOnceKept(s: Locks, t: Locks)
    requires LiriOnce(s) && t.fds.Keys <= s.fds.Keys && t.pending <= s.pending
    ensures LiriOnce(t)
  {
    forall r | r in t.pending && LiriName(r.who) ensures Single(t, r) {
      assert Single(s, r);
    }
  }

  lemma TidyUnInhibit(s: Locks, cookie: nat)
    requires Inv(s) && Agree(s) && Owned(s) && LiriOnce(s) && (FdOf(s, cookie) != -1 ==> s.connected)
    ensures Owned(UnInhibit(s, cookie)) && LiriOnce(UnInhibit(s, cookie))
  {
    if FdOf(s, cookie) != -1 {
      var t := UnInhibit(s, cookie);
      NoEmptyName(s);
      UnInhibitCloses(s, cookie);
      UnInhibitIndex(s, cookie);
      UnInhibitPending(s, cookie);
      OwnedWithout(s, t, cookie);
      LiriOnceKept(s, t);
    }
  }

  lemma OwnedWithout(s: Locks, t: Locks, cookie: nat)
    requires Owned(s) && cookie in s.inhibit && t.fds == s.fds - {s.inhibit[cookie].who}
    requires t.inhibit == s.inhibit - {cookie} && t.inhibitFd == s.inhibitFd - {cookie}
    ensures Owned(t)
  {
    forall a | a in t.fds && !LiriName(a) ensures exists c :: OwnedBy(t, c, a) {
      var c :| OwnedBy(s, c, a);
      assert OwnedBy(t, c, a);
    }
  }

  lemma UnInhibitPending(s: Locks, cookie: nat)
    ensures UnInhibit(s, cookie).pending == s.pending
  {
    CloseEffect(s, FdOf(s, cookie));
  }

  lemma OwnedGranted(s: Locks, r: Request, fd: int, t: Locks)
    requires Took(s, r, fd, t) && Agree(s) && Expected(s) && Owned(s) && r in s.pending
    ensures Owned(t)
  {
    forall a | a in t.fds && !LiriName(a) ensures exists c :: OwnedBy(t, c, a) {
      if a == r.who {
        var c :| Awaits(s, c, r);
        OnlyAwaiting(s, r, c);
        assert OwnedBy(t, c, a);
      } else {
        var c :| OwnedBy(s, c, a);
        assert OwnedBy(t, c, a);
      }
    }
  }

  lemma LiriOnceGranted(s: Locks, r: Request, fd: int, t: Locks)
    requires Took(s, r, fd, t) && LiriOnce(s) && r in s.pending
    ensures LiriOnce(t)
  {
    forall q | q in t.pending && LiriName(q.who) ensures Single(t, q) {
      assert Single(s, q);
      assert q != r;
    }
  }

  lemma LiriOnceUnlock(s: Locks)
    requires LiriOnce(s) && (s.connected ==> NoLiri(s))
    ensures LiriOnce(Unlock(s))
  {
    if s.connected {
      UnlockAsks(s);
      ThreeSingle(s, Unlock(s), POWER_BUTTON, SLEEP, LID);
    } else {
      LiriOnceKept(s, Unlock(s));
    }
  }

  lemma ThreeSingle(s: Locks, t: Locks, p: Request, q: Request, r: Request)
    requires NoLiri(s) && LiriName(p.who) && LiriName(q.who) && LiriName(r.who)
    requires p.who != q.who && q.who != r.who && p.who != r.who && t.fds == s.fds
    requires t.pending == s.pending + multiset{p} + multiset{q} + multiset{r}
    ensures LiriOnce(t)
  {
    forall a | a in t.pending && LiriName(a.who) ensures Single(t, a) {
      assert a !in s.pending && a in {p, q, r};
    }
  }

  /** The steps of the manager and of the link touch no cookie and no index entry. */
  lemma TidyManager(s: Locks, step: Step)
    requires Owned(s) && LiriOnce(s) && Quiet(step) && Intended(s, step)
    ensures Owned(Apply(s, step)) && LiriOnce(Apply(s, step))
  {
    QuietFields(s, step);
    OwnedKept(s, Apply(s, step));
    if step.StepUnlock? {
      LiriOnceUnlock(s);
    } else {
      QuietPending(s, step);
      LiriOnceKept(s, Apply(s, step));
    }
  }

  lemma QuietPending(s: Locks, step: Step)
    requires Quiet(step) && !step.StepUnlock?
    ensures Apply(s, step).pending <= s.pending
  {
  }

  lemma TidyStep(s: Locks, step: Step)
    requires Inv(s) && Tidy(s) && Enabled(s, step) && Intended(s, step) && Exclusive(s, step)
    ensures Tidy(Apply(s, step))
  {
    AgreeStep(s, step);
    match step
    case StepInhibit(who, why) => TidyInhibit(s, who, why);
    case StepUnInhibit(cookie) => TidyUnInhibit(s, cookie);
    case StepGranted(r, fd) =>
      GrantTook(s, r, fd);
      OwnedGranted(s, r, fd, Granted(s, r, fd));
      LiriOnceGranted(s, r, fd, Granted(s, r, fd));
    case _ => TidyManager(s, step);
  }

  lemma {:induction false} TidyRun(s: Locks, steps: seq<Step>)
    requires Inv(s) && Tidy(s) && Legal(s, steps) && IntendedRun(s, steps) && ExclusiveRun(s, steps)
    ensures Tidy(Exec(s, steps)) && NamesFree(s, steps)
    decreases |steps|
  {
    if steps == [] {
    } else {
      if steps[0].StepGranted? {
        NameIsFree(s, steps[0].r);
      }
      StepInv(s, steps[0]);
      TidyStep(s, steps[0]);
      TidyRun(Apply(s, steps[0]), steps[1..]);
    }
  }

  /** In intended use from startup, with at most 2^32 calls: every grant finds its name free, the three layers
      agree, the index accounts for every open descriptor, and once the link is up a lock signal ends and
      releases them all. Replies may come in any order or fail, dups may fail, and the link may go up and
      down. */
  lemma IntendedLife(steps: seq<Step>)
    requires Legal(INITIAL, steps) && IntendedRun(INITIAL, steps) && InhibitCalls(steps) <= COOKIE_LIMIT
    ensures NamesFree(INITIAL, steps)
    ensures var t := Exec(INITIAL, steps);
      && Agree(t) && "" !in t.fds && (forall x :: Count(t, x) == |OwnersOf(t.fds, x)|)
      && (t.connected ==> DrainEnds(t) && Lock(t).inhibitFds == [])
  {
    InitialInv();
    InitialAgrees();
    OwnNames(INITIAL, steps);
    FreshRun(INITIAL, steps);
    TidyRun(INITIAL, steps);
    RunInv(INITIAL, steps);
    NoLeak(INITIAL, steps);
    var t := Exec(INITIAL, steps);
    NoEmptyName(t);
    if t.connected {
      AllReleased(t);
    }
  }
}
