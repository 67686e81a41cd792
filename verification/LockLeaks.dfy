/** Which locks a lock signal releases, which ones leak, and how a leak comes about. */
module LockLeaks {
  import opened Traces
  import opened KeyOrder
  import opened LockSpec
  import opened LockInvariants

  /** A lock signal that is over has emptied the index. It released the descriptor of each index entry once, in
      the order of the owner names, and it left exactly the loose list entries. */
  lemma LockReleases(s: Locks)
    requires Inv(s) && DrainEnds(s)
    ensures var t := Lock(s);
      && t.fds == map[] && t.active && t.released == s.released + Held(s.fds)
      && Sorted(OwnerNames(s.fds)) && (forall x :: multiset(Held(s.fds))[x] == |OwnersOf(s.fds, x)|)
      && (forall x :: Count(t, x) == Loose(s, x))
    ensures var t := Lock(s);
      && t.inhibit == s.inhibit && t.inhibitFd == s.inhibitFd && t.pending == s.pending
      && t.connected == s.connected && t.acquired == s.acquired
  {
    LockDrains(s);
    NamesSorted(s.fds);
    forall x
      ensures multiset(Held(s.fds))[x] == |OwnersOf(s.fds, x)|
      ensures Count(Lock(s), x) == Loose(s, x)
    {
      LockLeaves(s, Lock(s), x);
    }
  }

  lemma LockDrains(s: Locks)
    requires Inv(s) && DrainEnds(s)
    ensures Drained(s, Lock(s).(active := s.active))
  {
    DrainEndsIff(s);
    if s.fds == map[] {
      Stays(s, |s.fds|);
    } else {
      DrainExits(s);
    }
    assert Lock(s).(active := s.active) == Drain(s);
  }

  lemma LockLeaves(s: Locks, t: Locks, x: int)
    requires multiset(t.inhibitFds) + multiset(Held(s.fds)) == multiset(s.inhibitFds)
    ensures multiset(Held(s.fds))[x] == |OwnersOf(s.fds, x)|
    ensures Count(t, x) == Loose(s, x)
  {
    HeldCounts(s.fds, x);
    BagLess(t.inhibitFds, Held(s.fds), s.inhibitFds, x);
  }

  lemma BagLess(a: seq<int>, b: seq<int>, c: seq<int>, x: int)
    requires multiset(a) + multiset(b) == multiset(c)
    ensures multiset(a)[x] == multiset(c)[x] - multiset(b)[x]
  {
  }

  /** A listed descriptor that no owner name leads to: no later lock signal can release it. */
  ghost predicate Orphan(s: Locks, fd: int) {
    Loose(s, fd) > 0
  }

  /** Where no descriptor is shared, that is a listed descriptor which the index does not hold. */
  lemma OrphanMeans(s: Locks, fd: int)
    requires Indexed(s) && OpenOnce(s) && fd != -1
    ensures Orphan(s, fd) <==> fd in s.inhibitFds && fd !in s.fds.Values
  {
    assert Loose(s, fd) >= 0 && Count(s, fd) <= 1;
    if fd in s.fds.Values {
      var a :| a in s.fds && s.fds[a] == fd;
      assert a in OwnersOf(s.fds, fd);
    } else {
      assert OwnersOf(s.fds, fd) == {};
    }
  }

  /** isInhibited() is false right after a lock signal if and only if there was no orphan. */
  lemma InhibitedAfterLockIff(s: Locks)
    requires Inv(s) && DrainEnds(s)
    ensures IsInhibited(Lock(s)) <==> exists fd :: Orphan(s, fd)
    ensures forall fd :: Orphan(Lock(s), fd) <==> Orphan(s, fd)
  {
    LockReleases(s);
    var t := Lock(s);
    forall fd ensures Orphan(t, fd) <==> Orphan(s, fd) {
      assert OwnersOf(t.fds, fd) == {};
      assert Count(t, fd) == Loose(s, fd);
    }
    if IsInhibited(t) {
      assert t.inhibitFds[0] in t.inhibitFds;
      assert Orphan(t, t.inhibitFds[0]);
    }
    if fd :| Orphan(s, fd) {
      assert Count(t, fd) > 0;
    }
  }

  /** A reply makes an orphan if and only if its owner name is taken, and then exactly the lock that held
      the name. */
  lemma GrantedOrphans(s: Locks, r: Request, fd: int, x: int)
    requires Indexed(s)
    ensures Orphan(Granted(s, r, fd), x) <==> Orphan(s, x) || (r.who in s.fds && x == s.fds[r.who])
  {
    GrantTook(s, r, fd);
    GrantLoose(s, r, fd, Granted(s, r, fd), x);
    assert Loose(s, x) >= 0;
  }

  /** No granted request finds its owner name taken. */
  ghost predicate NamesFree(s: Locks, steps: seq<Step>)
    decreases |steps|
  {
    steps == [] || (&& (steps[0].StepGranted? ==> steps[0].r.who !in s.fds)
                    && NamesFree(Apply(s, steps[0]), steps[1..]))
  }

  lemma StepOrphanFree(s: Locks, step: Step, x: int)
    requires Inv(s) && Enabled(s, step) && !Orphan(s, x)
    requires step.StepGranted? ==> step.r.who !in s.fds
    ensures !Orphan(Apply(s, step), x)
  {
    match step
    case StepUnInhibit(cookie) => CloseLoose(s, FdOf(s, cookie), x);
    case StepGranted(r, fd) =>
      GrantTook(s, r, fd);
      GrantLoose(s, r, fd, Granted(s, r, fd), x);
    case StepLock => InhibitedAfterLockIff(s);
    case _ =>
  }

  /** If every granted request finds its owner name free, then over any number of lock and unlock cycles
      no lock leaks, isInhibited() is false right after each lock signal, and the index holds exactly the
      open descriptors unless an application gave the empty name. */
  lemma {:induction false} NoLeak(s: Locks, steps: seq<Step>)
    requires Inv(s) && Legal(s, steps) && NamesFree(s, steps)
    requires forall x :: !Orphan(s, x)
    ensures var t := Exec(s, steps);
      && (forall x :: !Orphan(t, x))
      && ("" !in t.fds ==> forall x :: Count(t, x) == |OwnersOf(t.fds, x)|)
      && (DrainEnds(t) ==> !IsInhibited(Lock(t)))
    decreases |steps|
  {
    if steps == [] {
      if DrainEnds(s) {
        InhibitedAfterLockIff(s);
      }
      if "" !in s.fds {
        forall x ensures Count(s, x) == |OwnersOf(s.fds, x)| {
          assert !Orphan(s, x) && Loose(s, x) >= 0;
        }
      }
    } else {
      StepInv(s, steps[0]);
      forall x ensures !Orphan(Apply(s, steps[0]), x) {
        StepOrphanFree(s, steps[0], x);
      }
      NoLeak(Apply(s, steps[0]), steps[1..]);
    }
  }

  // ---------- A lock that leaked ----------

  /** No cookie leads to the descriptor; the -1 of a failed dup is never given back. */
  ghost predicate Unrecorded(s: Locks, x: int) {
    x == -1 || forall c :: c in s.inhibitFd ==> s.inhibitFd[c] != x
  }

  lemma OrphanUnInhibit(s: Locks, cookie: nat, x: int)
    requires Orphan(s, x) && Unrecorded(s, x)
    ensures Orphan(UnInhibit(s, cookie), x) && Unrecorded(UnInhibit(s, cookie), x)
  {
    CloseEffect(s, FdOf(s, cookie));
    CloseLoose(s, FdOf(s, cookie), x);
  }

  lemma OrphanGrant(s: Locks, r: Request, fd: int, t: Locks, x: int)
    requires Took(s, r, fd, t) && FromDup(s, fd) && Orphan(s, x) && Unrecorded(s, x)
    ensures Orphan(t, x) && Unrecorded(t, x)
  {
    GrantLoose(s, r, fd, t, x);
    assert Count(s, x) > 0;
  }

  lemma OrphanStays(s: Locks, step: Step, x: int)
    requires Inv(s) && Enabled(s, step) && Orphan(s, x) && Unrecorded(s, x)
    ensures Orphan(Apply(s, step), x) && Unrecorded(Apply(s, step), x)
  {
    match step
    case StepUnInhibit(cookie) => OrphanUnInhibit(s, cookie, x);
    case StepGranted(r, fd) =>
      GrantTook(s, r, fd);
      OrphanGrant(s, r, fd, Granted(s, r, fd), x);
    case StepLock =>
      InhibitedAfterLockIff(s);
      LockReleases(s);
    case _ =>
  }

  /** An orphan that no cookie leads to is never released: on every later run, with any number of lock signals,
      it stays listed and isInhibited() is true. */
  lemma {:induction false} OrphanForever(s: Locks, steps: seq<Step>, x: int)
    requires Inv(s) && Legal(s, steps) && Orphan(s, x) && Unrecorded(s, x)
    ensures var t := Exec(s, steps); Orphan(t, x) && x in t.inhibitFds && IsInhibited(t)
    decreases |steps|
  {
    if steps == [] {
      assert Count(s, x) > 0;
    } else {
      StepInv(s, steps[0]);
      OrphanStays(s, steps[0], x);
      OrphanForever(Apply(s, steps[0]), steps[1..], x);
    }
  }

  // ---------- A lock and unlock cycle ----------

  lemma LegalCons(s: Locks, a: Step, rest: seq<Step>)
    requires Enabled(s, a) && Legal(Apply(s, a), rest)
    ensures Legal(s, [a] + rest) && Exec(s, [a] + rest) == Exec(Apply(s, a), rest)
  {
    assert ([a] + rest)[1..] == rest;
  }

  /** Three replies in a row. */
  function Replies(p: Request, q: Request, r: Request, f: int, g: int, h: int): seq<Step> {
    [StepGranted(p, f)] + ([StepGranted(q, g)] + ([StepGranted(r, h)] + []))
  }

  /** Three numbers that dup may return one after the other. */
  predicate FromDups(f: int, g: int, h: int) {
    (f != -1 ==> f != g && f != h) && (g != -1 ==> g != h)
  }

  /** One legal step from s to t, as a run. */
  ghost predicate Leads(s: Locks, step: Step, t: Locks) {
    Enabled(s, step) && Apply(s, step) == t
  }

  lemma LeadsCons(s: Locks, a: Step, t: Locks, rest: seq<Step>)
    requires Leads(s, a, t) && Legal(t, rest)
    ensures Legal(s, [a] + rest) && Exec(s, [a] + rest) == Exec(t, rest)
  {
    LegalCons(s, a, rest);
  }

  lemma LegalNone(t: Locks)
    ensures Legal(t, []) && Exec(t, []) == t
  {
  }

  lemma LegalThree(u: Locks, a: Step, v: Locks, b: Step, w: Locks, c: Step, t: Locks)
    requires Leads(u, a, v) && Leads(v, b, w) && Leads(w, c, t)
    ensures var steps := [a] + ([b] + ([c] + [])); Legal(u, steps) && Exec(u, steps) == t
  {
    LegalNone(t);
    LeadsCons(w, c, t, []);
    LeadsCons(v, b, w, [c] + []);
    LeadsCons(u, a, v, [b] + ([c] + []));
  }

  /** Three distinct requests are in flight, and the list and the index are empty. */
  ghost predicate ReadyForThree(u: Locks, p: Request, q: Request, r: Request) {
    && p != q && q != r && p != r && p in u.pending && q in u.pending && r in u.pending
    && u.inhibitFds == [] && u.fds == map[]
  }

  /** What three grants in turn leave. */
  lemma ThreeTook(u: Locks, p: Request, q: Request, r: Request, f: int, g: int, h: int,
                  v: Locks, w: Locks, t: Locks)
    requires ReadyForThree(u, p, q, r) && FromDups(f, g, h)
    requires Took(u, p, f, v) && Took(v, q, g, w) && Took(w, r, h, t)
    ensures q in v.pending && r in w.pending && FromDup(u, f) && FromDup(v, g) && FromDup(w, h)
    ensures t.inhibitFds == [f, g, h] && t.fds == map[][p.who := f][q.who := g][r.who := h]
    ensures t.connected == u.connected
  {
  }

  lemma ThreeOrphanFree(u: Locks, p: Request, q: Request, r: Request, f: int, g: int, h: int,
                        v: Locks, w: Locks, t: Locks, x: int)
    requires u.inhibitFds == [] && u.fds == map[] && p.who != q.who && q.who != r.who && p.who != r.who
    requires Took(u, p, f, v) && Took(v, q, g, w) && Took(w, r, h, t)
    ensures !Orphan(t, x)
  {
    GrantLoose(u, p, f, v, x);
    GrantLoose(v, q, g, w, x);
    GrantLoose(w, r, h, t, x);
  }

  lemma ThreeInv(u: Locks, p: Request, q: Request, r: Request, f: int, g: int, h: int,
                 v: Locks, w: Locks, t: Locks)
    requires Inv(u) && FromDup(u, f) && FromDup(v, g) && FromDup(w, h)
    requires Took(u, p, f, v) && Took(v, q, g, w) && Took(w, r, h, t)
    ensures Inv(t)
  {
    GrantInv(u, p, f, v);
    GrantInv(v, q, g, w);
    GrantInv(w, r, h, t);
  }

  lemma UnlockAsks(s: Locks)
    requires s.connected
    ensures Unlock(s) == s.(pending := s.pending + multiset{POWER_BUTTON} + multiset{SLEEP} + multiset{LID},
                            active := false)
  {
  }

  lemma AllReleased(t: Locks)
    requires Inv(t) && t.connected && "" !in t.fds && forall x :: !Orphan(t, x)
    ensures DrainEnds(t) && Lock(t).inhibitFds == [] && Lock(t).fds == map[] && Lock(t).connected && Inv(Lock(t))
  {
    DrainEndsIff(t);
    LockReleases(t);
    InhibitedAfterLockIff(t);
    LockInv(t);
  }

  /** The steps of one cycle. */
  function Cycle(f: int, g: int, h: int): seq<Step> {
    [StepLock] + ([StepUnlock] + Replies(POWER_BUTTON, SLEEP, LID, f, g, h))
  }

  /** The manager's three locks are held, each under its own name, and nothing else is. */
  ghost predicate HoldsOwn(t: Locks, f: int, g: int, h: int) {
    && t.fds == map["Liri/PowerButton" := f, "Liri/Sleep" := g, "Liri/Lid" := h]
    && t.inhibitFds == [f, g, h]
  }

  lemma GrantLeads(s: Locks, r: Request, fd: int) returns (t: Locks)
    requires r in s.pending && FromDup(s, fd)
    ensures Leads(s, StepGranted(r, fd), t) && Took(s, r, fd, t)
  {
    t := Granted(s, r, fd);
    GrantTook(s, r, fd);
  }

  lemma ThreeLegal(u: Locks, p: Request, q: Request, r: Request, f: int, g: int, h: int)
    returns (v: Locks, w: Locks, t: Locks)
    requires ReadyForThree(u, p, q, r) && FromDups(f, g, h)
    ensures Took(u, p, f, v) && Took(v, q, g, w) && Took(w, r, h, t)
    ensures Legal(u, Replies(p, q, r, f, g, h)) && Exec(u, Replies(p, q, r, f, g, h)) == t
  {
    v := GrantLeads(u, p, f);
    assert q in v.pending && FromDup(v, g);
    w := GrantLeads(v, q, g);
    assert r in w.pending && FromDup(w, h);
    t := GrantLeads(w, r, h);
    LegalThree(u, StepGranted(p, f), v, StepGranted(q, g), w, StepGranted(r, h), t);
  }

  lemma ThreeInTurn(u: Locks, p: Request, q: Request, r: Request, f: int, g: int, h: int) returns (t: Locks)
    requires Inv(u) && ReadyForThree(u, p, q, r) && FromDups(f, g, h)
    requires p.who != q.who && q.who != r.who && p.who != r.who
    ensures Legal(u, Replies(p, q, r, f, g, h)) && Exec(u, Replies(p, q, r, f, g, h)) == t
    ensures t.inhibitFds == [f, g, h] && t.fds == map[][p.who := f][q.who := g][r.who := h]
    ensures Inv(t) && t.connected == u.connected && forall x :: !Orphan(t, x)
  {
    var v, w;
    v, w, t := ThreeLegal(u, p, q, r, f, g, h);
    ThreeTook(u, p, q, r, f, g, h, v, w, t);
    ThreeInv(u, p, q, r, f, g, h, v, w, t);
    forall x ensures !Orphan(t, x) {
      ThreeOrphanFree(u, p, q, r, f, g, h, v, w, t, x);
    }
  }

  lemma LockLeads(s: Locks) returns (l: Locks)
    requires Inv(s) && s.connected && "" !in s.fds && forall x :: !Orphan(s, x)
    ensures Leads(s, StepLock, l) && Inv(l) && l.connected && l.inhibitFds == [] && l.fds == map[]
  {
    l := Lock(s);
    AllReleased(s);
  }

  lemma UnlockLeads(l: Locks) returns (u: Locks)
    requires Inv(l) && l.connected && l.inhibitFds == [] && l.fds == map[]
    ensures Leads(l, StepUnlock, u) && Inv(u) && u.connected && ReadyForThree(u, POWER_BUTTON, SLEEP, LID)
  {
    u := Unlock(l);
    UnlockAsks(l);
    SameLocksInv(l, u);
  }

  lemma CycleRuns(s: Locks, l: Locks, u: Locks, rest: seq<Step>)
    requires Leads(s, StepLock, l) && Leads(l, StepUnlock, u) && Legal(u, rest)
    ensures var steps := [StepLock] + ([StepUnlock] + rest); Legal(s, steps) && Exec(s, steps) == Exec(u, rest)
  {
    LeadsCons(l, StepUnlock, u, rest);
    LeadsCons(s, StepLock, l, [StepUnlock] + rest);
  }

  /** A connected lock signal, the unlock after it and the replies to the unlock's requests, whatever numbers
      they bring: the manager's three locks are held again, each under its own name, and nothing else is;
      the next lock signal releases them all. */
  lemma LockCycle(s: Locks, f: int, g: int, h: int)
    requires Inv(s) && s.connected && "" !in s.fds && forall x :: !Orphan(s, x)
    requires FromDups(f, g, h)
    ensures Legal(s, Cycle(f, g, h))
    ensures var t := Exec(s, Cycle(f, g, h));
      HoldsOwn(t, f, g, h) && DrainEnds(t) && Lock(t).inhibitFds == []
  {
    var l := LockLeads(s);
    var u := UnlockLeads(l);
    var t := ThreeInTurn(u, POWER_BUTTON, SLEEP, LID, f, g, h);
    CycleRuns(s, l, u, Replies(POWER_BUTTON, SLEEP, LID, f, g, h));
    AllReleased(t);
  }

  // ---------- Runs that leak ----------

  lemma EmptyNameStays(s: Locks, step: Step)
    requires Inv(s) && "" in s.fds && Enabled(s, step)
    ensures "" in Apply(s, step).fds
  {
    match step
    case StepUnInhibit(cookie) => CloseEffect(s, FdOf(s, cookie));
    case StepLock => DrainEndsIff(s);
    case _ =>
  }

  /** Once a lock is granted to the empty name, which any application may give, no later lock signal is ever
      over: the entry is never removed, so every drain loop spins on it. */
  lemma {:induction false} EmptyNameForever(s: Locks, steps: seq<Step>)
    requires Inv(s) && "" in s.fds && Legal(s, steps)
    ensures "" in Exec(s, steps).fds && !DrainEnds(Exec(s, steps))
    decreases |steps|
  {
    if steps == [] {
      DrainEndsIff(s);
    } else {
      EmptyNameStays(s, steps[0]);
      StepInv(s, steps[0]);
      EmptyNameForever(Apply(s, steps[0]), steps[1..]);
    }
  }

  /** A drain loop that never ends is three steps from startup: an application asks under the empty name, and
      its lock is granted. */
  lemma EmptyNameFromStartup(why: string, fd: int)
    ensures var r := IdleRequest("", why);
      var steps := [StepLink(true)] + ([StepInhibit("", why)] + ([StepGranted(r, fd)] + []));
      Legal(INITIAL, steps) && !DrainEnds(Exec(INITIAL, steps))
  {
    var t := FirstGrant("", why, fd);
    DrainEndsIff(t);
  }

  /** So is one that starts when the link is lost while a lock is held. */
  lemma LostLinkFromStartup(who: string, why: string, fd: int)
    ensures var r := IdleRequest(who, why);
      var steps := [StepLink(true)] + ([StepInhibit(who, why)] + ([StepGranted(r, fd)] + []));
      var t := Exec(INITIAL, steps);
      Legal(INITIAL, steps) && Enabled(t, StepLink(false)) && !DrainEnds(Apply(t, StepLink(false)))
  {
    var t := FirstGrant(who, why, fd);
    assert who in t.fds;
    StepInv(t, StepLink(false));
    DrainEndsIff(Apply(t, StepLink(false)));
  }

  /** One application's request and its reply, from startup. */
  lemma FirstGrant(who: string, why: string, fd: int) returns (t: Locks)
    ensures var steps := [StepLink(true)] + ([StepInhibit(who, why)] + ([StepGranted(IdleRequest(who, why), fd)] + []));
      Legal(INITIAL, steps) && Exec(INITIAL, steps) == t
    ensures Inv(t) && t.fds == map[who := fd]
  {
    var r := IdleRequest(who, why);
    var u := INITIAL.(connected := true);
    var v := Inhibit(u, who, why);
    t := GrantLeads(v, r, fd);
    LegalThree(INITIAL, StepLink(true), u, StepInhibit(who, why), v, StepGranted(r, fd), t);
    InitialInv();
    StepInv(INITIAL, StepLink(true));
    InhibitInv(u, who, why);
    GrantInv(v, r, fd, t);
  }

  /** Two dups that fail in a row, as they do when descriptors have run out: -1 is then listed twice, and the
      index may hold it for two owners. */
  lemma TwoFailedDups(s: Locks, q: Request, r: Request)
    requires q in s.pending && r in s.pending && q.who != r.who
    ensures Legal(s, [StepGranted(q, -1), StepGranted(r, -1)])
    ensures var t := Exec(s, [StepGranted(q, -1), StepGranted(r, -1)]);
      !NoDup(t.inhibitFds) && q.who in t.fds && r.who in t.fds && t.fds[q.who] == t.fds[r.who] == -1
  {
    var t := Granted(s, q, -1);
    GrantTook(s, q, -1);
    GrantTook(t, r, -1);
    LegalTwo(s, StepGranted(q, -1), StepGranted(r, -1));
    TwiceListed(s.inhibitFds, -1);
  }

  lemma TwiceListed(fds: seq<int>, fd: int)
    ensures !NoDup(fds + [fd] + [fd])
  {
    var held := fds + [fd] + [fd];
    assert held[|fds|] == held[|fds| + 1] == fd;
  }

  /** A grant under a taken name leaves the older lock open through the next lock signal and, unless a cookie
      leads to it, through every later run. */
  lemma OverwriteLeaks(s: Locks, r: Request, fd: int, steps: seq<Step>)
    requires Inv(s) && Indexed(s) && s.connected && r.who != "" && r.who in s.fds && FromDup(s, fd)
    ensures var t := Granted(s, r, fd); var x := s.fds[r.who];
      && DrainEnds(t) && IsInhibited(Lock(t)) && x in Lock(t).inhibitFds
      && (Unrecorded(t, x) && Legal(t, steps) ==> x in Exec(t, steps).inhibitFds && IsInhibited(Exec(t, steps)))
  {
    var x := s.fds[r.who];
    var t := Granted(s, r, fd);
    GrantedInv(s, r, fd);
    GrantedOrphans(s, r, fd, x);
    GrantTook(s, r, fd);
    DrainEndsIff(t);
    LockReleases(t);
    InhibitedAfterLockIff(t);
    if Unrecorded(t, x) && Legal(t, steps) {
      OrphanForever(t, steps, x);
    }
  }

  /** Any second unlock in a row loses the manager's own locks: when logind grants "Liri/Sleep" again while
      it is held, the old descriptor survives the next lock signal, and every later run unless a cookie leads
      to it. */
  lemma RepeatedUnlockLeaks(s: Locks, fd: int, steps: seq<Step>)
    requires Inv(s) && "" !in s.fds && s.connected && "Liri/Sleep" in s.fds && FromDup(s, fd)
    ensures SLEEP in Unlock(s).pending && Enabled(Unlock(s), StepGranted(SLEEP, fd))
    ensures var t := Granted(Unlock(s), SLEEP, fd); var x := s.fds["Liri/Sleep"];
      && DrainEnds(t) && IsInhibited(Lock(t)) && x in Lock(t).inhibitFds
      && (Unrecorded(t, x) && Legal(t, steps) ==> x in Exec(t, steps).inhibitFds && IsInhibited(Exec(t, steps)))
  {
    var u := Unlock(s);
    UnlockAsks(s);
    SameLocksInv(s, u);
    OverwriteLeaks(u, SLEEP, fd, steps);
  }

  /** A cookie given back while the link is down is forgotten, but its lock stays open. */
  lemma DisconnectedUnInhibitLeaks(s: Locks, cookie: nat)
    requires !s.connected && cookie in s.inhibitFd && s.inhibitFd[cookie] != -1
    ensures var t := UnInhibit(s, cookie);
      && cookie !in t.inhibit && cookie !in t.inhibitFd
      && t.inhibitFds == s.inhibitFds && t.fds == s.fds && t.released == s.released
  {
  }

  lemma LegalTwo(s: Locks, a: Step, b: Step)
    requires Enabled(s, a) && Enabled(Apply(s, a), b)
    ensures Legal(s, [a, b]) && Exec(s, [a, b]) == Apply(Apply(s, a), b)
  {
    LegalCons(Apply(s, a), b, []);
    LegalCons(s, a, [b] + []);
    assert [a] + ([b] + []) == [a, b];
  }

  /** The reply to a request reaches a cookie if and only if it is the least one with the request's owner and
      reason; so of several such cookies only the first gets a descriptor, as long as it lives. */
  lemma GrantReachesIff(s: Locks, r: Request, fd: int, c: nat)
    requires c in s.inhibitFd ==> s.inhibitFd[c] != fd
    ensures var t := Granted(s, r, fd);
      c in t.inhibitFd && t.inhibitFd[c] == fd <==> IsLeast(CookiesFor(s.inhibit, Entry(r.who, r.why)), c)
    ensures IsLeast(CookiesFor(s.inhibit, Entry(r.who, r.why)), c) <==>
      c in s.inhibit && s.inhibit[c].who == r.who && s.inhibit[c].why == r.why
      && forall d :: d in s.inhibit && s.inhibit[d].who == r.who && s.inhibit[d].why == r.why ==> c <= d
    ensures IsLeast(CookiesFor(s.inhibit, Entry(r.who, r.why)), c) ==>
      Granted(s, r, fd).inhibitFd == s.inhibitFd[c := fd]
  {
    GrantTook(s, r, fd);
    assert forall d :: d in CookiesFor(s.inhibit, Entry(r.who, r.why)) <==>
      d in s.inhibit && s.inhibit[d].who == r.who && s.inhibit[d].why == r.why;
  }

  /** Two live cookies with one owner and reason, of which the greater has no descriptor. */
  ghost predicate Shadowed(s: Locks, c: nat, d: nat) {
    c < d && c in s.inhibit && d in s.inhibit && s.inhibit[c] == s.inhibit[d] && d !in s.inhibitFd
  }

  /** The counter does not come round to either of the two, and the smaller one is not given back. */
  ghost predicate Leaves(s: Locks, step: Step, c: nat, d: nat) {
    (step.StepInhibit? ==> s.seed != c && s.seed != d) && c in Apply(s, step).inhibit
  }

  ghost predicate LeavesRun(s: Locks, steps: seq<Step>, c: nat, d: nat)
    decreases |steps|
  {
    steps == [] || (Leaves(s, steps[0], c, d) && LeavesRun(Apply(s, steps[0]), steps[1..], c, d))
  }

  lemma ShadowedGrant(s: Locks, r: Request, fd: int, t: Locks, c: nat, d: nat)
    requires Took(s, r, fd, t) && Shadowed(s, c, d)
    ensures Shadowed(t, c, d)
  {
    var cs := CookiesFor(s.inhibit, Entry(r.who, r.why));
    assert d in cs ==> c in cs;
  }

  lemma ShadowedUnInhibit(s: Locks, cookie: nat, c: nat, d: nat)
    requires Shadowed(s, c, d) && c in UnInhibit(s, cookie).inhibit
    ensures Shadowed(UnInhibit(s, cookie), c, d)
  {
    CloseEffect(s, FdOf(s, cookie));
    assert cookie == d ==> FdOf(s, cookie) == -1;
  }

  lemma ShadowedStep(s: Locks, step: Step, c: nat, d: nat)
    requires Inv(s) && Enabled(s, step) && Shadowed(s, c, d) && Leaves(s, step, c, d)
    ensures Shadowed(Apply(s, step), c, d)
  {
    match step
    case StepUnInhibit(cookie) => ShadowedUnInhibit(s, cookie, c, d);
    case StepGranted(r, fd) =>
      GrantTook(s, r, fd);
      ShadowedGrant(s, r, fd, Granted(s, r, fd), c, d);
    case StepLock => LockReleases(s);
    case _ =>
  }

  /** As long as the smaller of the two lives, no reply ever reaches the other. */
  lemma {:induction false} ShadowedRun(s: Locks, steps: seq<Step>, c: nat, d: nat)
    requires Inv(s) && Legal(s, steps) && Shadowed(s, c, d) && LeavesRun(s, steps, c, d)
    ensures d !in Exec(s, steps).inhibitFd && Shadowed(Exec(s, steps), c, d)
    decreases |steps|
  {
    if steps == [] {
    } else {
      StepInv(s, steps[0]);
      ShadowedStep(s, steps[0], c, d);
      ShadowedRun(Apply(s, steps[0]), steps[1..], c, d);
    }
  }

  lemma OthersFor(inhibit: map<nat, Entry>, c: nat, e: Entry)
    ensures CookiesFor(inhibit - {c}, e) == CookiesFor(inhibit, e) - {c}
  {
  }

  lemma UnInhibitForgets(s: Locks, c: nat)
    requires FdOf(s, c) != -1
    ensures var t := UnInhibit(s, c); t.inhibit == s.inhibit - {c} && t.inhibitFd == s.inhibitFd - {c}
    ensures UnInhibit(s, c).pending == s.pending
  {
    CloseEffect(s, FdOf(s, c));
  }

  lemma ReachesLeast(s: Locks, r: Request, g: int, d: nat)
    requires CookiesFor(s.inhibit, Entry(r.who, r.why)) == {d}
    ensures FdOf(Granted(s, r, g), d) == g
  {
    GrantTook(s, r, g);
  }

  /** Once the smaller cookie has its lock and is given back, the next reply reaches the other. */
  lemma ShadowEnds(s: Locks, c: nat, d: nat, r: Request, g: int)
    requires Shadowed(s, c, d) && CookiesFor(s.inhibit, Entry(r.who, r.why)) == {c, d} && FdOf(s, c) != -1
    requires r in s.pending && FromDup(UnInhibit(s, c), g)
    ensures Legal(s, [StepUnInhibit(c), StepGranted(r, g)])
    ensures FdOf(Exec(s, [StepUnInhibit(c), StepGranted(r, g)]), d) == g
  {
    UnInhibitForgets(s, c);
    OthersFor(s.inhibit, c, Entry(r.who, r.why));
    assert {c, d} - {c} == {d};
    ReachesLeast(UnInhibit(s, c), r, g, d);
    LegalTwo(s, StepUnInhibit(c), StepGranted(r, g));
  }

  /** Two grants to cookies with the same owner and reason, the fields. */
  lemma SameReasonTook(s: Locks, c: nat, r: Request, f: int, g: int, t: Locks, u: Locks)
    requires IsLeast(CookiesFor(s.inhibit, Entry(r.who, r.why)), c)
    requires Took(s, r, f, t) && Took(t, r, g, u) && f != g
    requires forall k :: k in s.inhibitFd ==> s.inhibitFd[k] != f
    ensures FdOf(u, c) == g && (forall k :: k in u.inhibitFd ==> u.inhibitFd[k] != f)
    ensures forall d :: d != c && d !in s.inhibitFd ==> d !in u.inhibitFd
    ensures r.who in t.fds && t.fds[r.who] == f
  {
  }

  /** Two live cookies with the same owner and reason: both grants go to the first cookie. The first grant
      becomes an orphan that no cookie names, so no later run releases it, and the second cookie still has no
      descriptor. */
  lemma SameReasonLeaks(s: Locks, c: nat, d: nat, r: Request, f: int, g: int)
    requires Inv(s) && Indexed(s) && r.who != ""
    requires IsLeast(CookiesFor(s.inhibit, Entry(r.who, r.why)), c)
    requires c != d && d in CookiesFor(s.inhibit, Entry(r.who, r.why)) && d !in s.inhibitFd
    requires f !in s.inhibitFds && FromDup(s, g) && f != g && s.pending[r] >= 2
    requires forall k :: k in s.inhibitFd ==> s.inhibitFd[k] != f
    ensures Legal(s, [StepGranted(r, f), StepGranted(r, g)])
    ensures var t := Exec(s, [StepGranted(r, f), StepGranted(r, g)]);
      FdOf(t, c) == g && d !in t.inhibitFd && Orphan(t, f) && Unrecorded(t, f) && Inv(t)
  {
    var t := Granted(s, r, f);
    var u := Granted(t, r, g);
    GrantTook(s, r, f);
    GrantTook(t, r, g);
    SameReasonTook(s, c, r, f, g, t, u);
    SameReasonOrphan(s, r, f, g, t, u);
    GrantTwice(s, r, f, g);
  }

  lemma GrantTwice(s: Locks, r: Request, f: int, g: int)
    requires s.pending[r] >= 2 && FromDup(s, f) && FromDup(s, g) && (f != g || f == -1)
    ensures var steps := [StepGranted(r, f), StepGranted(r, g)];
      Legal(s, steps) && Exec(s, steps) == Granted(Granted(s, r, f), r, g)
  {
    GrantTook(s, r, f);
    LegalTwo(s, StepGranted(r, f), StepGranted(r, g));
  }

  lemma SameReasonOrphan(s: Locks, r: Request, f: int, g: int, t: Locks, u: Locks)
    requires Inv(s) && Indexed(s) && r.who != "" && f !in s.inhibitFds && FromDup(s, g) && f != g
    requires Took(s, r, f, t) && Took(t, r, g, u)
    ensures Inv(u) && Orphan(u, f)
  {
    GrantInv(s, r, f, t);
    GrantInv(t, r, g, u);
    GrantIndexed(s, r, f, t);
    assert Loose(t, f) >= 0;
    GrantLoose(t, r, g, u, f);
  }

  // ---------- The manager's own locks at startup ----------

  ghost predicate LiriName(who: string) {
    who == "Liri/PowerButton" || who == "Liri/Sleep" || who == "Liri/Lid"
  }

  ghost predicate NoLiri(s: Locks) {
    && (forall r :: r in s.pending ==> !LiriName(r.who))
    && (forall who :: who in s.fds ==> !LiriName(who))
  }

  lemma NoLiriInhibit(s: Locks, who: string, why: string)
    requires NoLiri(s) && !LiriName(who)
    ensures NoLiri(Inhibit(s, who, why))
  {
    var t := Inhibit(s, who, why);
    assert t.fds == s.fds && forall r :: r in t.pending ==> r in s.pending || r.who == who;
  }

  lemma NoLiriUnInhibit(s: Locks, cookie: nat)
    requires NoLiri(s)
    ensures NoLiri(UnInhibit(s, cookie))
  {
    CloseEffect(s, FdOf(s, cookie));
    assert UnInhibit(s, cookie).pending == s.pending;
  }

  lemma NoLiriGranted(s: Locks, r: Request, fd: int)
    requires NoLiri(s) && r in s.pending
    ensures NoLiri(Granted(s, r, fd))
  {
    GrantTook(s, r, fd);
  }

  lemma NoLiriLock(s: Locks)
    requires NoLiri(s) && Inv(s) && DrainEnds(s)
    ensures NoLiri(Lock(s))
  {
    LockDrains(s);
  }

  lemma NoLiriUnlockIff(s: Locks)
    requires NoLiri(s)
    ensures NoLiri(Unlock(s)) <==> !s.connected
  {
    if s.connected {
      assert POWER_BUTTON in Unlock(s).pending;
    }
  }

  /** The manager's locks are first asked for by an unlock signal while the link is up, and by nothing else. */
  lemma NoLiriStepIff(s: Locks, step: Step)
    requires NoLiri(s) && Inv(s) && Enabled(s, step)
    requires step.StepInhibit? ==> !LiriName(step.who)
    ensures NoLiri(Apply(s, step)) <==> !(step.StepUnlock? && s.connected)
  {
    match step
    case StepInhibit(who, why) => NoLiriInhibit(s, who, why);
    case StepUnInhibit(cookie) => NoLiriUnInhibit(s, cookie);
    case StepGranted(r, fd) => NoLiriGranted(s, r, fd);
    case StepLock => NoLiriLock(s);
    case StepUnlock => NoLiriUnlockIff(s);
    case _ =>
  }

  /** No unlock signal comes while the link is up. */
  ghost predicate NoLiveUnlock(s: Locks, steps: seq<Step>)
    decreases |steps|
  {
    steps == [] || (!(steps[0].StepUnlock? && s.connected) && NoLiveUnlock(Apply(s, steps[0]), steps[1..]))
  }

  /** Whatever else happens, without such a signal the manager asks for no power-button, sleep or lid lock and
      holds none. */
  lemma {:induction false} NoLiriBeforeUnlock(s: Locks, steps: seq<Step>)
    requires NoLiri(s) && Inv(s) && Legal(s, steps) && NoLiveUnlock(s, steps)
    requires forall i :: 0 <= i < |steps| ==> steps[i].StepInhibit? ==> !LiriName(steps[i].who)
    ensures NoLiri(Exec(s, steps))
    decreases |steps|
  {
    if steps == [] {
    } else {
      StepInv(s, steps[0]);
      NoLiriStepIff(s, steps[0]);
      NoLiriBeforeUnlock(Apply(s, steps[0]), steps[1..]);
    }
  }

  /** The requests of the backend's constructor are dropped if and only if the link is down, as it is when the
      constructor runs; so the above holds of every run from startup. */
  lemma SetupIsDroppedIff(s: Locks)
    ensures Setup(s) == s <==> !s.connected
    ensures Setup(INITIAL) == INITIAL && NoLiri(INITIAL) && Inv(INITIAL)
  {
    if s.connected {
      assert Setup(s).pending[SLEEP] > s.pending[SLEEP];
    }
  }
}
