/** Agreement of the three layers on who holds which lock, and the cookies that name them. */
module LockCookies {
  import opened Traces
  import opened KeyOrder
  import opened LockSpec
  import opened LockInvariants
  import opened LockLeaks

  /** The first 2^32 Inhibit calls return pairwise distinct cookies, and no more than that: two calls return
      the same cookie if and only if their numbers differ by a multiple of 2^32. */
  lemma CookiesDistinctIff(s: Locks, steps: seq<Step>, i: nat, j: nat)
    requires Inv(s) && Legal(s, steps)
    requires i < j < |Exec(s, steps).cookies|
    ensures Exec(s, steps).cookies[i] == Exec(s, steps).cookies[j] <==> (j - i) % 0x1_0000_0000 == 0
    ensures |Exec(s, steps).cookies| < 0x1_0000_0000 ==>
      Exec(s, steps).cookies[i] < Exec(s, steps).cookies[j] < Exec(s, steps).seed
  {
    RunInv(s, steps);
    var t := Exec(s, steps);
    assert t.cookies[i] == i % COOKIE_LIMIT && t.cookies[j] == j % COOKIE_LIMIT;
    SameRemainder(i, j);
    if |t.cookies| < COOKIE_LIMIT {
      SmallRemainder(i, COOKIE_LIMIT);
      SmallRemainder(j, COOKIE_LIMIT);
      SmallRemainder(|t.cookies|, COOKIE_LIMIT);
    }
  }

  lemma SameRemainder(i: nat, j: nat)
    requires i < j
    ensures i % COOKIE_LIMIT == j % COOKIE_LIMIT <==> (j - i) % COOKIE_LIMIT == 0
  {
  }

  lemma SmallRemainder(i: nat, m: nat)
    requires i < m
    ensures i % m == i
  {
  }

  /** Before the counter wraps, the next cookie is not in use. */
  lemma SeedFresh(s: Locks)
    requires CookiesCounted(s) && |s.cookies| < COOKIE_LIMIT
    ensures s.seed !in s.inhibit
  {
  }

  /** Where the protocol is used as intended: an application asks under its own name, one lock at a time,
      and never under a name of the manager. */
  ghost predicate OwnName(s: Locks, step: Step) {
    && step != StepLock
    && (step.StepInhibit? ==> !LiriName(step.who) && forall c :: c in s.inhibit ==> s.inhibit[c].who != step.who)
  }

  ghost predicate OwnNameRun(s: Locks, steps: seq<Step>)
    decreases |steps|
  {
    steps == [] || (OwnName(s, steps[0]) && OwnNameRun(Apply(s, steps[0]), steps[1..]))
  }

  /** The same, and the new cookie is not in use. */
  ghost predicate Exclusive(s: Locks, step: Step) {
    OwnName(s, step) && (step.StepInhibit? ==> s.seed !in s.inhibit)
  }

  ghost predicate ExclusiveRun(s: Locks, steps: seq<Step>)
    decreases |steps|
  {
    steps == [] || (Exclusive(s, steps[0]) && ExclusiveRun(Apply(s, steps[0]), steps[1..]))
  }

  function InhibitCalls(steps: seq<Step>): nat {
    if steps == [] then 0 else (if steps[0].StepInhibit? then 1 else 0) + InhibitCalls(steps[1..])
  }

  /** One step hands out one cookie or none. */
  lemma CookiesGrow(s: Locks, step: Step)
    requires Inv(s) && OwnName(s, step)
    ensures |Apply(s, step).cookies| == |s.cookies| + InhibitCalls([step])
  {
    match step
    case StepUnInhibit(cookie) => CloseEffect(s, FdOf(s, cookie));
    case StepGranted(r, fd) => GrantTook(s, r, fd);
    case _ =>
  }

  /** For the first 2^32 calls the counter never meets a live cookie. */
  lemma {:induction false} FreshRun(s: Locks, steps: seq<Step>)
    requires Inv(s) && Legal(s, steps) && OwnNameRun(s, steps)
    requires |s.cookies| + InhibitCalls(steps) <= COOKIE_LIMIT
    ensures ExclusiveRun(s, steps)
    decreases |steps|
  {
    if steps == [] {
    } else {
      StepInv(s, steps[0]);
      CookiesGrow(s, steps[0]);
      if steps[0].StepInhibit? {
        SeedFresh(s);
      }
      FreshRun(Apply(s, steps[0]), steps[1..]);
    }
  }

  ghost predicate Owners(s: Locks) {
    && s.inhibitFd.Keys <= s.inhibit.Keys
    && (forall c :: c in s.inhibit ==> !LiriName(s.inhibit[c].who))
    && (forall c, d :: c in s.inhibit && d in s.inhibit && s.inhibit[c].who == s.inhibit[d].who ==> c == d)
  }

  /** The descriptor a cookie records is the one its owner name leads to, and it is open. */
  ghost predicate HoldsLock(s: Locks, c: nat)
    requires c in s.inhibit && c in s.inhibitFd
  {
    && s.inhibit[c].who in s.fds
    && s.fds[s.inhibit[c].who] == s.inhibitFd[c]
    && s.inhibitFd[c] in s.inhibitFds
  }

  /** The three layers agree: each cookie with a descriptor holds its lock, and no two hold the same one, save
      for failed dups. */
  ghost predicate Agree(s: Locks) {
    && Owners(s)
    && (forall c :: c in s.inhibitFd ==> HoldsLock(s, c))
    && (forall c, d :: c in s.inhibitFd && d in s.inhibitFd && s.inhibitFd[c] == s.inhibitFd[d] != -1 ==> c == d)
  }

  /** A request of an application in flight is the only one, and it belongs to the live cookie c, which
      has no descriptor yet. */
  ghost predicate Awaits(s: Locks, c: nat, r: Request) {
    && c in s.inhibit && c !in s.inhibitFd
    && r == IdleRequest(s.inhibit[c].who, s.inhibit[c].why)
    && s.pending[r] == 1
  }

  ghost predicate Expected(s: Locks) {
    forall r :: r in s.pending && !LiriName(r.who) ==> exists c :: Awaits(s, c, r)
  }

  lemma AgreeInhibit(s: Locks, who: string, why: string)
    requires Agree(s) && Expected(s) && Exclusive(s, StepInhibit(who, why))
    ensures Agree(Inhibit(s, who, why)) && Expected(Inhibit(s, who, why))
  {
    var t := Inhibit(s, who, why);
    var mine := IdleRequest(who, why);
    assert t.inhibit == s.inhibit[s.seed := Entry(who, why)] && t.inhibitFd == s.inhibitFd;
    assert s.seed !in s.inhibitFd;
    forall c | c in t.inhibitFd ensures HoldsLock(t, c) {
      assert HoldsLock(s, c);
    }
    forall r | r in t.pending && !LiriName(r.who) ensures exists c :: Awaits(t, c, r) {
      if r in s.pending {
        var c :| Awaits(s, c, r);
        assert r != mine;
        assert Awaits(t, c, r);
      } else {
        assert r == mine;
        assert Awaits(t, s.seed, r);
      }
    }
  }

  /** Closing the descriptor of one cookie leaves every other cookie its lock. */
  lemma CloseHolds(s: Locks, c: nat, d: nat)
    requires Agree(s) && c in s.inhibitFd && d in s.inhibitFd && c != d && s.inhibitFd[c] != -1
    ensures HoldsLock(Close(s, s.inhibitFd[c]), d)
  {
    CloseEffect(s, s.inhibitFd[c]);
    assert HoldsLock(s, d) && s.inhibitFd[d] != s.inhibitFd[c];
    StillListed(Close(s, s.inhibitFd[c]), s, s.inhibitFd[c], s.inhibitFd[d]);
  }

  lemma StillListed(t: Locks, s: Locks, fd: int, x: int)
    requires multiset(t.inhibitFds) == multiset(s.inhibitFds) - multiset{fd} || t == s
    requires x in s.inhibitFds && x != fd
    ensures x in t.inhibitFds
  {
    assert multiset(t.inhibitFds)[x] > 0;
  }

  lemma AgreeUnInhibit(s: Locks, cookie: nat)
    requires Agree(s) && Expected(s)
    ensures Agree(UnInhibit(s, cookie)) && Expected(UnInhibit(s, cookie))
  {
    var fd := FdOf(s, cookie);
    if fd != -1 {
      var t := UnInhibit(s, cookie);
      CloseEffect(s, fd);
      assert t.inhibit == s.inhibit - {cookie} && t.inhibitFd == s.inhibitFd - {cookie};
      forall c | c in t.inhibitFd ensures HoldsLock(t, c) {
        CloseHolds(s, cookie, c);
      }
      forall r | r in t.pending && !LiriName(r.who) ensures exists c :: Awaits(t, c, r) {
        var c :| Awaits(s, c, r);
        assert Awaits(t, c, r);
      }
    }
  }

  /** The reply to an application's request reaches the cookie that waits for it. */
  lemma AttachReaches(s: Locks, r: Request, fd: int, c: nat)
    requires Owners(s) && Awaits(s, c, r)
    ensures Granted(s, r, fd).inhibitFd == s.inhibitFd[c := fd]
  {
    OnlyAwaiting(s, r, c);
    GrantReachesIff(s, r, fd, c);
  }

  lemma OnlyAwaiting(s: Locks, r: Request, c: nat)
    requires Owners(s) && Awaits(s, c, r)
    ensures IsLeast(CookiesFor(s.inhibit, Entry(r.who, r.why)), c)
    ensures CookiesFor(s.inhibit, Entry(r.who, r.why)) == {c}
  {
    var cs := CookiesFor(s.inhibit, Entry(r.who, r.why));
    assert c in cs;
    assert forall d :: d in cs ==> d == c;
  }

  lemma AgreeGrantedApp(s: Locks, r: Request, fd: int, t: Locks, c: nat)
    requires Took(s, r, fd, t) && Agree(s) && FromDup(s, fd) && Awaits(s, c, r)
    ensures Agree(t) && t.inhibitFd == s.inhibitFd[c := fd]
  {
    OnlyAwaiting(s, r, c);
    assert t.inhibitFd == s.inhibitFd[c := fd];
    forall d | d in t.inhibitFd ensures HoldsLock(t, d) {
      if d != c {
        assert HoldsLock(s, d);
      }
    }
    forall d | d in s.inhibitFd && d != c ensures s.inhibitFd[d] == fd ==> fd == -1 {
      assert HoldsLock(s, d);
    }
  }

  lemma ExpectedGrantedApp(s: Locks, r: Request, fd: int, t: Locks, c: nat)
    requires Took(s, r, fd, t) && Agree(s) && Expected(s) && Awaits(s, c, r)
    ensures Expected(t)
  {
    OnlyAwaiting(s, r, c);
    forall q | q in t.pending && !LiriName(q.who) ensures exists d :: Awaits(t, d, q) {
      assert q != r;
      var d :| Awaits(s, d, q);
      assert d != c;
      assert Awaits(t, d, q);
    }
  }

  lemma AgreeGrantedLiri(s: Locks, r: Request, fd: int, t: Locks)
    requires Took(s, r, fd, t) && Agree(s) && Expected(s) && LiriName(r.who)
    ensures Agree(t) && Expected(t) && t.inhibitFd == s.inhibitFd
  {
    assert CookiesFor(s.inhibit, Entry(r.who, r.why)) == {};
    forall d | d in t.inhibitFd ensures HoldsLock(t, d) {
      assert HoldsLock(s, d);
    }
    forall q | q in t.pending && !LiriName(q.who) ensures exists d :: Awaits(t, d, q) {
      var d :| Awaits(s, d, q);
      assert Awaits(t, d, q);
    }
  }

  lemma AgreeGranted(s: Locks, r: Request, fd: int)
    requires Agree(s) && Expected(s) && r in s.pending && FromDup(s, fd)
    ensures Agree(Granted(s, r, fd)) && Expected(Granted(s, r, fd))
  {
    var t := Granted(s, r, fd);
    GrantTook(s, r, fd);
    if LiriName(r.who) {
      AgreeGrantedLiri(s, r, fd, t);
    } else {
      var c :| Awaits(s, c, r);
      AgreeGrantedApp(s, r, fd, t, c);
      ExpectedGrantedApp(s, r, fd, t, c);
    }
  }

  lemma AgreeRefused(s: Locks, r: Request)
    requires Agree(s) && Expected(s)
    ensures Agree(Refused(s, r)) && Expected(Refused(s, r))
  {
    var t := Refused(s, r);
    forall d | d in t.inhibitFd ensures HoldsLock(t, d) {
      assert HoldsLock(s, d);
    }
    forall q | q in t.pending && !LiriName(q.who) ensures exists d :: Awaits(t, d, q) {
      var d :| Awaits(s, d, q);
      assert Awaits(t, d, q);
    }
  }

  /** Unlock, prepare-for-sleep and link changes only add requests of the manager. */
  lemma AgreeQuiet(s: Locks, t: Locks)
    requires Agree(s) && Expected(s)
    requires t.inhibit == s.inhibit && t.inhibitFd == s.inhibitFd && t.fds == s.fds
    requires t.inhibitFds == s.inhibitFds
    requires forall r: Request :: !LiriName(r.who) ==> t.pending[r] == s.pending[r]
    ensures Agree(t) && Expected(t)
  {
    forall d | d in t.inhibitFd ensures HoldsLock(t, d) {
      assert HoldsLock(s, d);
    }
    forall q | q in t.pending && !LiriName(q.who) ensures exists d :: Awaits(t, d, q) {
      var d :| Awaits(s, d, q);
      assert Awaits(t, d, q);
    }
  }

  lemma AgreeUnlock(s: Locks)
    requires Agree(s) && Expected(s)
    ensures Agree(Unlock(s)) && Expected(Unlock(s))
  {
    if s.connected {
      UnlockAsks(s);
    }
    AgreeQuiet(s, Unlock(s));
  }

  /** The steps that touch no cookie. */
  lemma AgreeManager(s: Locks, step: Step)
    requires Agree(s) && Expected(s)
    requires step.StepUnlock? || step.StepPrepareForSleep? || step.StepLink?
    ensures Agree(Apply(s, step)) && Expected(Apply(s, step))
  {
    if step.StepUnlock? {
      AgreeUnlock(s);
    } else {
      AgreeQuiet(s, Apply(s, step));
    }
  }

  lemma AgreeStep(s: Locks, step: Step)
    requires Agree(s) && Expected(s) && Enabled(s, step) && Exclusive(s, step)
    ensures Agree(Apply(s, step)) && Expected(Apply(s, step))
  {
    match step
    case StepInhibit(who, why) => AgreeInhibit(s, who, why);
    case StepUnInhibit(cookie) => AgreeUnInhibit(s, cookie);
    case StepGranted(r, fd) => AgreeGranted(s, r, fd);
    case StepRefused(r) => AgreeRefused(s, r);
    case _ => AgreeManager(s, step);
  }

  /** On every run without a lock signal in which no two live cookies share an owner name and no application
      takes a name of the manager: each cookie with a descriptor names an open lock, which is the one the
      index holds for its owner, and distinct cookies name distinct locks, unless their dups failed. Replies may
      come in any order or fail, the link may go up and down, and descriptor numbers may be reused. */
  lemma {:induction false} RunAgree(s: Locks, steps: seq<Step>)
    requires Inv(s) && Agree(s) && Expected(s) && Legal(s, steps) && ExclusiveRun(s, steps)
    ensures Agree(Exec(s, steps)) && Expected(Exec(s, steps))
    decreases |steps|
  {
    if steps == [] {
    } else {
      StepInv(s, steps[0]);
      AgreeStep(s, steps[0]);
      RunAgree(Apply(s, steps[0]), steps[1..]);
    }
  }

  lemma InitialAgrees()
    ensures Agree(INITIAL) && Expected(INITIAL)
  {
  }

  /** The same for runs from startup, where 2^32 calls are enough for the cookies to be fresh. */
  lemma AgreeFromStartup(steps: seq<Step>)
    requires Legal(INITIAL, steps) && OwnNameRun(INITIAL, steps) && InhibitCalls(steps) <= COOKIE_LIMIT
    ensures Agree(Exec(INITIAL, steps)) && Expected(Exec(INITIAL, steps))
  {
    InitialInv();
    InitialAgrees();
    FreshRun(INITIAL, steps);
    RunAgree(INITIAL, steps);
  }

  lemma UnInhibitCloses(s: Locks, c: nat)
    requires OpenOnce(s) && Agree(s) && s.connected && c in s.inhibitFd && s.inhibitFd[c] != -1
    ensures var t := UnInhibit(s, c); var fd := s.inhibitFd[c];
      && t.released == s.released + [fd]
      && (forall x :: x in t.inhibitFds <==> x in s.inhibitFds && x != fd)
      && t.inhibit == s.inhibit - {c} && t.inhibitFd == s.inhibitFd - {c}
  {
    assert HoldsLock(s, c);
    CloseEffect(s, s.inhibitFd[c]);
    assert Count(s, s.inhibitFd[c]) <= 1;
    TakenOut(UnInhibit(s, c).inhibitFds, s.inhibitFds, s.inhibitFd[c]);
  }

  lemma TakenOut(a: seq<int>, b: seq<int>, fd: int)
    requires multiset(a) == multiset(b) - multiset{fd} && multiset(b)[fd] <= 1
    ensures forall x :: x in a <==> x in b && x != fd
  {
    assert forall x :: x in a <==> multiset(a)[x] > 0;
    assert forall x :: x in b <==> multiset(b)[x] > 0;
  }

  lemma UnInhibitOthers(s: Locks, c: nat, d: nat)
    requires Agree(s) && c in s.inhibitFd && s.inhibitFd[c] != -1 && d in s.inhibitFd && d != c
    ensures var t := UnInhibit(s, c); d in t.inhibit && d in t.inhibitFd && HoldsLock(t, d)
  {
    CloseEffect(s, s.inhibitFd[c]);
    CloseHolds(s, c, d);
  }

  lemma UnInhibitIndex(s: Locks, c: nat)
    requires Inv(s) && Agree(s) && s.connected && c in s.inhibitFd && s.inhibitFd[c] != -1 && "" !in s.fds
    ensures UnInhibit(s, c).fds == s.fds - {s.inhibit[c].who}
  {
    var who, fd := s.inhibit[c].who, s.inhibitFd[c];
    assert HoldsLock(s, c);
    SoleOwner(s, who);
    CloseIndexed(s, fd);
    assert UnInhibit(s, c).fds == Close(s, fd).fds;
  }

  /** Where the layers agree, a connected UnInhibit closes exactly the lock of its cookie, and every other
      cookie keeps its entry, its descriptor and its lock. */
  lemma UnInhibitExact(s: Locks, c: nat)
    requires Inv(s) && Agree(s) && s.connected && c in s.inhibitFd && s.inhibitFd[c] != -1
    ensures var t := UnInhibit(s, c); var fd := s.inhibitFd[c];
      && t.released == s.released + [fd]
      && (forall x :: x in t.inhibitFds <==> x in s.inhibitFds && x != fd)
      && t.inhibit == s.inhibit - {c} && t.inhibitFd == s.inhibitFd - {c}
      && (forall d :: d in t.inhibitFd ==> d in t.inhibit && HoldsLock(t, d))
      && ("" !in s.fds ==> t.fds == s.fds - {s.inhibit[c].who})
  {
    var t := UnInhibit(s, c);
    UnInhibitCloses(s, c);
    forall d | d in t.inhibitFd ensures d in t.inhibit && HoldsLock(t, d) {
      UnInhibitOthers(s, c, d);
    }
    if "" !in s.fds {
      UnInhibitIndex(s, c);
    }
  }

  /** What giving a cookie back is for: its lock is closed, and the cookie is forgotten. */
  ghost predicate GivesBack(s: Locks, c: nat) {
    var t := UnInhibit(s, c);
    c !in t.inhibit && c !in t.inhibitFd && t.released == s.released + [FdOf(s, c)]
  }

  /** Giving a live cookie back works if and only if the link is up and the cookie records a descriptor that is
      open; where the layers agree the descriptor is open whenever one is recorded. A cookie has none before
      its grant, and -1 after a failed dup. */
  lemma GivesBackIff(s: Locks, c: nat)
    requires c in s.inhibit
    ensures GivesBack(s, c) <==> s.connected && FdOf(s, c) != -1 && FdOf(s, c) in s.inhibitFds
    ensures Agree(s) ==> (GivesBack(s, c) <==> s.connected && FdOf(s, c) != -1)
  {
    if Agree(s) && c in s.inhibitFd {
      assert HoldsLock(s, c);
    }
  }

  /** A failed dup is recorded like any descriptor, and the cookie can then not be given back. */
  lemma FailedDupIsRecorded(s: Locks, c: nat, r: Request)
    requires Agree(s) && Awaits(s, c, r)
    ensures Enabled(s, StepGranted(r, -1))
    ensures var t := Granted(s, r, -1); c in t.inhibit && HasFailedDup(t, c) && UnInhibit(t, c) == t
  {
    AttachReaches(s, r, -1, c);
  }

  ghost predicate HasFailedDup(s: Locks, c: nat) {
    c in s.inhibit && c in s.inhibitFd && s.inhibitFd[c] == -1
  }

  lemma FailedDupStep(s: Locks, step: Step, c: nat)
    requires Agree(s) && Expected(s) && Enabled(s, step) && Exclusive(s, step) && HasFailedDup(s, c)
    ensures HasFailedDup(Apply(s, step), c)
  {
    match step
    case StepUnInhibit(cookie) => FailedDupUnInhibit(s, cookie, c);
    case StepGranted(r, fd) => FailedDupGranted(s, r, fd, c);
    case _ =>
  }

  lemma FailedDupUnInhibit(s: Locks, cookie: nat, c: nat)
    requires HasFailedDup(s, c)
    ensures HasFailedDup(UnInhibit(s, cookie), c)
  {
  }

  lemma FailedDupGranted(s: Locks, r: Request, fd: int, c: nat)
    requires Agree(s) && Expected(s) && r in s.pending && HasFailedDup(s, c)
    ensures HasFailedDup(Granted(s, r, fd), c)
  {
    GrantTook(s, r, fd);
    if !LiriName(r.who) {
      var d :| Awaits(s, d, r);
      AttachReaches(s, r, fd, d);
    }
  }

  /** Such a cookie lives for ever, and with it a descriptor -1 in the list: over every lock-free run with
      unshared names it stays, whoever gives it back and whatever other dups fail, and isInhibited() is true. */
  lemma {:induction false} FailedDupForever(s: Locks, steps: seq<Step>, c: nat)
    requires Inv(s) && Agree(s) && Expected(s) && Legal(s, steps) && ExclusiveRun(s, steps) && HasFailedDup(s, c)
    ensures var t := Exec(s, steps); HasFailedDup(t, c) && !GivesBack(t, c) && IsInhibited(t)
    decreases |steps|
  {
    if steps == [] {
      assert HoldsLock(s, c);
    } else {
      StepInv(s, steps[0]);
      AgreeStep(s, steps[0]);
      FailedDupStep(s, steps[0], c);
      FailedDupForever(Apply(s, steps[0]), steps[1..], c);
    }
  }

  /** A cookie given back before its lock is granted is not given back at all: the request stays in flight,
      and once it is granted the cookie holds the lock. */
  lemma EarlyUnInhibitIsLost(s: Locks, c: nat, r: Request, fd: int)
    requires Inv(s) && Agree(s) && Expected(s) && Awaits(s, c, r) && FromDup(s, fd)
    ensures r in UnInhibit(s, c).pending
    ensures var t := Granted(UnInhibit(s, c), r, fd);
      c in t.inhibit && c in t.inhibitFd && HoldsLock(t, c) && t.inhibitFd[c] == fd
  {
    assert UnInhibit(s, c) == s;
    GrantTook(s, r, fd);
    AgreeGrantedApp(s, r, fd, Granted(s, r, fd), c);
  }

  /** A lock signal keeps the agreement if and only if no cookie holds a descriptor: it releases the locks
      but leaves the cookies' records of them. */
  lemma LockKeepsAgreementIff(s: Locks)
    requires Inv(s) && Agree(s) && DrainEnds(s)
    ensures Agree(Lock(s)) <==> s.inhibitFd == map[]
  {
    LockReleases(s);
    var t := Lock(s);
    if s.inhibitFd != map[] {
      var c :| c in s.inhibitFd;
      assert c in t.inhibitFd && s.inhibit[c].who !in t.fds;
      assert !HoldsLock(t, c);
    }
  }

  /** A record that outlived its lock still closes whatever descriptor now has its number. */
  lemma StaleUnInhibit(t: Locks, c: nat, who: string, fd: int)
    requires OpenOnce(t) && Indexed(t) && t.connected && fd != -1
    requires FdOf(t, c) == fd && who in t.fds && t.fds[who] == fd
    ensures UnInhibit(t, c).released == t.released + [fd]
    ensures who !in UnInhibit(t, c).fds
  {
    SoleOwner(t, who);
    CloseIndexed(t, fd);
    CloseEffect(t, fd);
  }

  lemma FdOfAfterForeignGrant(l: Locks, r: Request, fd: int, c: nat)
    requires c in l.inhibit && l.inhibit[c].who != r.who && FdOf(l, c) == fd
    ensures FdOf(Granted(l, r, fd), c) == fd
  {
  }

  /** After the lock signal the cookie still records its descriptor, whose number is free again. */
  lemma StaleAfterLock(s: Locks, c: nat)
    requires Inv(s) && Agree(s) && s.connected && "" !in s.fds && c in s.inhibitFd && s.inhibitFd[c] != -1
    ensures var l := Lock(s);
      && Enabled(s, StepLock) && Inv(l) && l.connected && l.fds == map[]
      && s.inhibitFd[c] !in l.inhibitFds && FdOf(l, c) == s.inhibitFd[c]
      && l.inhibit == s.inhibit && l.pending == s.pending
  {
    assert HoldsLock(s, c);
    SoleOwner(s, s.inhibit[c].who);
    DrainEndsIff(s);
    LockReleases(s);
    LockInv(s);
    assert Count(Lock(s), s.inhibitFd[c]) == 0;
  }

  lemma ForeignGrant(l: Locks, c: nat, r: Request, fd: int)
    requires Inv(l) && l.connected && l.fds == map[] && fd !in l.inhibitFds && fd != -1
    requires FdOf(l, c) == fd && c in l.inhibit && l.inhibit[c].who != r.who && r.who != ""
    ensures var t := Granted(l, r, fd);
      && r.who in t.fds && t.fds[r.who] == fd && FdOf(t, c) == fd
      && UnInhibit(t, c).released == t.released + [fd]
      && r.who !in UnInhibit(t, c).fds
  {
    GrantedInv(l, r, fd);
    GrantTook(l, r, fd);
    GrantIndexed(l, r, fd, Granted(l, r, fd));
    FdOfAfterForeignGrant(l, r, fd, c);
    StaleUnInhibit(Granted(l, r, fd), c, r.who, fd);
  }

  /** What such a stale record does: when logind hands the number of the released lock out again, to any
      owner, giving the old cookie back closes the new owner's lock. */
  lemma StaleCookieClosesForeignLock(s: Locks, c: nat, r: Request)
    requires Inv(s) && Agree(s) && s.connected && "" !in s.fds && c in s.inhibitFd && s.inhibitFd[c] != -1
    requires r in s.pending && r.who != "" && r.who != s.inhibit[c].who
    ensures Legal(s, [StepLock, StepGranted(r, s.inhibitFd[c])])
    ensures var fd := s.inhibitFd[c];
      var t := Granted(Lock(s), r, fd);
      && r.who in t.fds && t.fds[r.who] == fd && FdOf(t, c) == fd
      && UnInhibit(t, c).released == t.released + [fd]
      && r.who !in UnInhibit(t, c).fds
  {
    var fd := s.inhibitFd[c];
    StaleAfterLock(s, c);
    LegalTwo(s, StepLock, StepGranted(r, fd));
    ForeignGrant(Lock(s), c, r, fd);
  }
}
