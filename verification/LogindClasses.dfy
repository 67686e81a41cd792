/** The three objects of the inhibitor-lock protocol, with the fields and the control flow of the program.
    Each method that handles an event is proved to take exactly one step of LockSpec and of LinkSpec.

    A signal connection is a listener field, set by the constructor of the receiving object; emitting is
    calling the listener. Fields that only record what other processes have seen are ghost. */
module LogindClasses {
  import opened Traces
  import opened Wrappers
  import opened KeyOrder
  import opened LockSpec
  import opened LockInvariants
  import opened LinkSpec

  /** One entry of the user's session list with the answers to the two property reads made for it; a failed
      read answers the empty string. */
  datatype UserSession = UserSession(id: string, path: string, kind: string, state: string)

  /** The answers to GetUser and to the read of the user's session list. */
  datatype UserReplies = UserReplies(userOk: bool, listOk: bool, sessions: seq<UserSession>)

  predicate Eligible(u: UserSession) {
    (u.kind == "tty" || u.kind == "wayland" || u.kind == "x11") && u.state == "active"
  }

  /** Index i holds the session that getUserSession must return. */
  ghost predicate IsChosen(replies: UserReplies, i: int) {
    && 0 <= i < |replies.sessions| && Eligible(replies.sessions[i])
    && forall j :: i < j < |replies.sessions| ==> !Eligible(replies.sessions[j])
  }

  ghost predicate HasSession(replies: UserReplies) {
    && replies.userOk && replies.listOk
    && exists i :: 0 <= i < |replies.sessions| && Eligible(replies.sessions[i])
  }

  /** The search finds a session if and only if both calls succeed and some session is active and of one of three
      types; it must return the last such session. */
  lemma ChosenIff(replies: UserReplies, i: int)
    ensures var l := replies.sessions; var types := {"tty", "wayland", "x11"};
      && (HasSession(replies) <==>
            && replies.userOk && replies.listOk
            && exists j :: 0 <= j < |l| && l[j].kind in types && l[j].state == "active")
      && (IsChosen(replies, i) <==>
            && 0 <= i < |l| && l[i].kind in types && l[i].state == "active"
            && forall j :: i < j < |l| ==> !(l[j].kind in types && l[j].state == "active"))
  {
    assert forall u: UserSession :: Eligible(u) <==> u.kind in {"tty", "wayland", "x11"} && u.state == "active";
  }

  /** The path that a successful session search yields. */
  ghost predicate IsUserPath(replies: UserReplies, path: Option<string>) {
    && (path.Some? <==> HasSession(replies))
    && (path.Some? ==> exists i :: IsChosen(replies, i) && path.value == replies.sessions[i].path)
  }

  class Logind {
    var isConnected: bool
    var sessionPath: string
    var sessionActive: bool
    var vt: int
    var seat: string
    var inhibitFds: seq<int>
    var pending: multiset<Request>
    var listener: LogindBackend?

    ghost var acquired: seq<int>
    ghost var released: seq<int>
    ghost var changes: seq<bool>
    ghost var connectedLog: seq<bool>
    ghost var activeLog: seq<bool>
    ghost var vtLog: seq<int>
    ghost var seatLog: seq<string>
    ghost var hints: seq<string>

    ghost predicate Wired()
      reads this, listener, if listener != null then {listener.listener} else {}
    {
      && listener != null && listener.logind == this
      && listener.listener != null && listener.listener.backend == listener
    }

    ghost function Locks(): Locks
      requires Wired()
      reads this, listener, if listener != null then {listener.listener} else {}
    {
      var s := listener.listener;
      LockSpec.Locks.Locks(s.cookieSeed, s.inhibit, s.inhibitFd, s.active, listener.fds,
                           isConnected, inhibitFds, pending, s.cookies, acquired, released, changes)
    }

    ghost function Link(): Link
      reads this
    {
      LinkSpec.Link.Link(isConnected, sessionPath, sessionActive, vt, seat,
                         connectedLog, activeLog, vtLog, seatLog, hints)
    }

    constructor ()
      ensures Link() == UNLINKED && listener == null
      ensures inhibitFds == [] && pending == multiset{}
      ensures acquired == [] && released == [] && changes == []
    {
      isConnected, sessionPath, sessionActive, vt, seat := false, "", false, -1, "";
      inhibitFds, pending, listener := [], multiset{}, null;
      acquired, released, changes := [], [], [];
      connectedLog, activeLog, vtLog, seatLog, hints := [], [], [], [], [];
    }

    /** Nothing is sent while the link is down; otherwise the call is in flight. */
    method Inhibit(who: string, why: string, what: set<What>, mode: Mode)
      modifies this`pending
      ensures pending == if isConnected then old(pending) + multiset{Request(who, why, what, mode)} else old(pending)
      ensures Link() == old(Link())
    {
      if !isConnected {
        return;
      }
      pending := pending + multiset{Request(who, why, what, mode)};
    }

    /** The reply to one Inhibit call: the duplicated descriptor, or nothing for an error. */
    method HandleInhibitReply(r: Request, reply: Option<int>)
      requires Wired() && r in pending
      modifies this`pending, this`inhibitFds, this`acquired, this`changes
      modifies listener`fds, listener.listener`inhibitFd
      ensures Wired()
      ensures reply.Some? ==> Locks() == Granted(old(Locks()), r, reply.value)
      ensures reply.None? ==> Locks() == Refused(old(Locks()), r)
      ensures Link() == old(Link())
    {
      pending := pending - multiset{r};
      if reply.None? {
        return;
      }
      ghost var s := Locks();
      Acquire(reply.value);
      ghost var t := Locks();
      assert t == Open(s, reply.value);
      listener.HandleInhibited(r.who, r.why, reply.value);
      assert Locks() == Attach(t.(fds := t.fds[r.who := reply.value]), r.who, r.why, reply.value);
    }

    /** The first half of a successful reply: keep the descriptor, and say so when it is the first. */
    method Acquire(fd: int)
      requires Wired()
      modifies this`inhibitFds, this`acquired, this`changes
      ensures Wired() && Locks() == Open(old(Locks()), fd)
      ensures Link() == old(Link())
    {
      acquired := acquired + [fd];
      inhibitFds := inhibitFds + [fd];
      if |inhibitFds| == 1 {
        changes := changes + [true];
      }
    }

    method Uninhibit(fd: int)
      requires Wired()
      modifies this`inhibitFds, this`released, this`changes, listener`fds
      ensures Locks() == Close(old(Locks()), fd)
      ensures Link() == old(Link())
    {
      if !isConnected || fd !in inhibitFds {
        return;
      }
      released := released + [fd];
      inhibitFds := RemoveOne(inhibitFds, fd);
      if |inhibitFds| == 0 {
        changes := changes + [false];
      }
      listener.HandleUninhibited(fd);
    }

    /** Finds the last active session of a valid type in the user's session list. */
    method GetUserSession(replies: UserReplies) returns (found: bool, session: UserSession)
      ensures found <==> HasSession(replies)
      ensures found ==> exists i :: IsChosen(replies, i) && session == replies.sessions[i]
    {
      found, session := false, UserSession("", "", "", "");
      if !replies.userOk || !replies.listOk {
        return;
      }
      for i := 0 to |replies.sessions|
        invariant found <==> exists j :: 0 <= j < i && Eligible(replies.sessions[j])
        invariant found ==> exists j :: 0 <= j < i && Eligible(replies.sessions[j]) && session == replies.sessions[j]
                                        && forall k :: j < k < i ==> !Eligible(replies.sessions[k])
      {
        if replies.sessions[i].kind !in ["tty", "wayland", "x11"] {
          continue;
        }
        if replies.sessions[i].state != "active" {
          continue;
        }
        session, found := replies.sessions[i], true;
      }
      if found {
        var j :| 0 <= j < |replies.sessions| && Eligible(replies.sessions[j]) && session == replies.sessions[j]
                 && forall k :: j < k < |replies.sessions| ==> !Eligible(replies.sessions[k]);
        assert IsChosen(replies, j);
      }
    }

    /** The first half of a registration: the user's session, else the session id, else the process id. */
    method FindSessionPath(replies: UserReplies, envSet: bool, byId: Option<string>, byPid: Option<string>)
      returns (ghost user: Option<string>)
      modifies this`sessionPath
      ensures IsUserPath(replies, user)
      ensures sessionPath == FoundPath(old(sessionPath), Lookups(user, envSet, byId, byPid))
    {
      var found, session := GetUserSession(replies);
      user := if found then Some(session.path) else None;
      if found {
        sessionPath := session.path;
      } else {
        var sessionObjectPath := "";
        if envSet {
          if byId.Some? {
            sessionObjectPath := byId.value;
            sessionPath := sessionObjectPath;
          }
        }
        if sessionObjectPath == "" {
          if byPid.Some? {
            sessionObjectPath := byPid.value;
            sessionPath := sessionObjectPath;
          }
        }
      }
    }

    method ServiceRegistered(replies: UserReplies, envSet: bool, byId: Option<string>, byPid: Option<string>)
      returns (ghost user: Option<string>)
      requires Wired()
      modifies this`isConnected, this`sessionPath, this`connectedLog, this`hints
      ensures old(!isConnected) ==> IsUserPath(replies, user)
      ensures Link() == LinkUp(old(Link()), Lookups(user, envSet, byId, byPid))
      ensures Locks() == old(Locks()).(connected := isConnected)
    {
      user := None;
      if isConnected {
        return;
      }
      user := FindSessionPath(replies, envSet, byId, byPid);
      if sessionPath == "" {
        return;
      }
      Connect();
    }

    /** The second half of a registration: the connection is up, and its listeners are told. */
    method Connect()
      requires Wired() && sessionPath != ""
      modifies this`isConnected, this`connectedLog, this`hints
      ensures Link() == Hint(old(Link()).(connected := true, connectedLog := old(connectedLog) + [true]), true)
      ensures Wired() && Locks() == old(Locks()).(connected := true)
    {
      isConnected := true;
      connectedLog := connectedLog + [true];
      listener.HandleConnectedChanged(true);
    }

    method ServiceUnregistered()
      requires Wired()
      modifies this`isConnected, this`sessionActive, this`vt, this`seat
      modifies this`connectedLog, this`activeLog, this`vtLog, this`seatLog, this`hints
      ensures Link() == LinkDown(old(Link()))
      ensures Locks() == old(Locks()).(connected := false)
    {
      isConnected := false;
      connectedLog := connectedLog + [false];
      listener.HandleConnectedChanged(false);
      assert Locks() == old(Locks()).(connected := false);
      assert Link() == old(Link()).(connected := false, connectedLog := connectedLog);
      ResetProperties();
    }

    /** The second half of the handler above. */
    method ResetProperties()
      requires Wired()
      modifies this`sessionActive, this`vt, this`seat, this`activeLog, this`vtLog, this`seatLog
      ensures Wired() && Locks() == old(Locks())
      ensures Link() == SetSeat(SetVt(SetActive(old(Link()), false), -1), "")
    {
      UpdateActive(false);
      UpdateVt(-1);
      UpdateSeat("");
    }

    /** The next three store a property and emit its signal, both only on a change. */
    method UpdateActive(active: bool)
      modifies this`sessionActive, this`activeLog
      ensures old(Wired()) ==> Wired() && Locks() == old(Locks())
      ensures Link() == SetActive(old(Link()), active)
    {
      if sessionActive != active {
        sessionActive := active;
        activeLog := activeLog + [active];
      }
    }

    method UpdateVt(vtnr: int)
      modifies this`vt, this`vtLog
      ensures old(Wired()) ==> Wired() && Locks() == old(Locks())
      ensures Link() == SetVt(old(Link()), vtnr)
    {
      if vt != vtnr {
        vt := vtnr;
        vtLog := vtLog + [vtnr];
      }
    }

    method UpdateSeat(id: string)
      modifies this`seat, this`seatLog
      ensures old(Wired()) ==> Wired() && Locks() == old(Locks())
      ensures Link() == SetSeat(old(Link()), id)
    {
      if seat != id {
        seat := id;
        seatLog := seatLog + [id];
      }
    }

    method HandleActiveReply(reply: Option<bool>)
      modifies this`sessionActive, this`activeLog
      ensures Link() == if reply.Some? then SetActive(old(Link()), reply.value) else old(Link())
    {
      if reply.None? {
        return;
      }
      UpdateActive(reply.value);
    }

    method HandleVtReply(reply: Option<UInt32>)
      modifies this`vt, this`vtLog
      ensures Link() == if reply.Some? then SetVt(old(Link()), AsInt32(reply.value)) else old(Link())
    {
      if reply.None? {
        return;
      }
      UpdateVt(AsInt32(reply.value));
    }

    method HandleSeatReply(reply: Option<string>)
      modifies this`seat, this`seatLog
      ensures Link() == if reply.Some? then SetSeat(old(Link()), reply.value) else old(Link())
    {
      if reply.None? {
        return;
      }
      UpdateSeat(reply.value);
    }

    method SetIdleHint(idle: bool)
      modifies this`hints
      ensures hints == if isConnected && sessionPath != "" && !idle then old(hints) + [sessionPath] else old(hints)
    {
      if !isConnected || sessionPath == "" {
        return;
      }
      if !idle {
        hints := hints + [sessionPath];
      }
    }
  }

  class LogindBackend {
    const logind: Logind
    var fds: map<string, int>
    var listener: ScreenSaver?

    constructor (logind: Logind)
      modifies logind`listener, logind`pending
      ensures this.logind == logind && logind.listener == this && fds == map[] && listener == null
      ensures !logind.isConnected ==> logind.pending == old(logind.pending)
    {
      this.logind, fds, listener := logind, map[], null;
      new;
      logind.listener := this;
      SetupInhibitors();
    }

    method SetupInhibitors()
      modifies logind`pending
      ensures logind.pending ==
              if logind.isConnected then old(logind.pending) + multiset{POWER_BUTTON} + multiset{SLEEP} + multiset{LID}
              else old(logind.pending)
    {
      logind.Inhibit(POWER_BUTTON.who, POWER_BUTTON.why, POWER_BUTTON.what, POWER_BUTTON.mode);
      logind.Inhibit(SLEEP.who, SLEEP.why, SLEEP.what, SLEEP.mode);
      logind.Inhibit(LID.who, LID.why, LID.what, LID.mode);
    }

    method InhibitIdle(who: string, why: string)
      modifies logind`pending
      ensures logind.pending ==
              if logind.isConnected then old(logind.pending) + multiset{IdleRequest(who, why)}
              else old(logind.pending)
    {
      logind.Inhibit(who, why, IDLE_ONLY, Block);
    }

    method HandleConnectedChanged(connected: bool)
      modifies logind`hints
      ensures logind.hints == if connected && logind.isConnected && logind.sessionPath != ""
                              then old(logind.hints) + [logind.sessionPath] else old(logind.hints)
    {
      if connected {
        logind.SetIdleHint(false);
      }
    }

    method HandleInhibited(who: string, why: string, fd: int)
      requires listener != null
      modifies this`fds, listener`inhibitFd
      ensures fds == old(fds)[who := fd]
      ensures var cs := CookiesFor(listener.inhibit, Entry(who, why));
        listener.inhibitFd == if cs == {} then old(listener.inhibitFd) else old(listener.inhibitFd)[Least(cs) := fd]
    {
      fds := fds[who := fd];
      listener.HandleInhibited(who, why, fd);
    }

    /** QMap::key on the owner index. */
    method OwnerOf(fd: int) returns (who: string)
      ensures who == KeyOf(fds, fd)
    {
      var owners := set k | k in fds && fds[k] == fd;
      if owners == {} {
        return "";
      }
      FirstExists(owners);
      who :| who in owners && forall k | k in owners :: AtMost(who, k);
      FirstUnique(owners, who);
    }

    /** The key of cbegin() of the owner index. */
    method FirstOwner() returns (who: string)
      requires fds != map[]
      ensures who == First(fds.Keys)
    {
      FirstExists(fds.Keys);
      who :| who in fds && forall k | k in fds :: AtMost(who, k);
      FirstUnique(fds.Keys, who);
    }

    method HandleUninhibited(fd: int)
      modifies this`fds
      ensures var who := KeyOf(old(fds), fd); fds == if who == "" then old(fds) else old(fds) - {who}
    {
      var who := OwnerOf(fd);
      if who != "" {
        fds := fds - {who};
      }
    }

    /** The loop of the lock handler and of the destructor, watched for a number of turns: in some states it
        never ends (DrainEndsIff). */
    method UninhibitAll(turns: nat)
      requires logind.Wired() && logind.listener == this
      modifies this`fds, logind`inhibitFds, logind`released, logind`changes
      ensures logind.Wired() && logind.Locks() == DrainFor(old(logind.Locks()), turns)
      ensures logind.Link() == old(logind.Link())
    {
      ghost var start := logind.Locks();
      var left := turns;
      while fds != map[] && left > 0
        invariant logind.Wired() && logind.listener == this
        invariant DrainFor(logind.Locks(), left) == DrainFor(start, turns)
        invariant logind.Link() == old(logind.Link())
        decreases left
      {
        ghost var s := logind.Locks();
        var who := FirstOwner();
        logind.Uninhibit(fds[who]);
        assert logind.Locks() == DrainOne(s);
        left := left - 1;
      }
    }

    /** over: the handler has returned within so many turns of its loop. In a state with the invariant it does
        if and only if the loop's guard holds and there are turns enough, and then it is the Lock step. */
    method HandleSessionLocked(turns: nat) returns (over: bool)
      requires logind.Wired() && logind.listener == this
      modifies this`fds, logind`inhibitFds, logind`released, logind`changes, listener`active
      ensures !over ==> logind.Locks() == DrainFor(old(logind.Locks()), turns)
      ensures old(Inv(logind.Locks())) ==>
        && (over <==> old(CanDrain(logind.Locks())) && turns >= |old(fds)|)
        && (over ==> logind.Locks() == Lock(old(logind.Locks())))
      ensures logind.Link() == old(logind.Link())
    {
      ghost var start := logind.Locks();
      UninhibitAll(turns);
      if Inv(start) {
        DrainForIff(start, turns);
      }
      if fds != map[] {
        return false;
      }
      listener.HandleLock();
      return true;
    }

    method HandleSessionUnlocked()
      requires logind.Wired() && logind.listener == this
      modifies logind`pending, listener`active
      ensures logind.Locks() == Unlock(old(logind.Locks()))
      ensures logind.Link() == old(logind.Link())
    {
      SetupInhibitors();
      listener.HandleUnlock();
    }

    method PrepareForSleep(before: bool)
      requires logind.Wired() && logind.listener == this
      modifies listener`active
      ensures logind.Locks() == LockSpec.PrepareForSleep(old(logind.Locks()), before)
    {
      if before {
        listener.HandleLock();
      }
    }
  }

  class ScreenSaver {
    const backend: LogindBackend
    var cookieSeed: nat
    var inhibit: map<nat, Entry>
    var inhibitFd: map<nat, int>
    var active: bool

    ghost var cookies: seq<nat>

    constructor (backend: LogindBackend)
      modifies backend`listener
      ensures this.backend == backend && backend.listener == this
      ensures cookieSeed == 0 && inhibit == map[] && inhibitFd == map[] && !active && cookies == []
    {
      this.backend := backend;
      cookieSeed, inhibit, inhibitFd, active, cookies := 0, map[], map[], false, [];
      new;
      backend.listener := this;
    }

    method Inhibit(appName: string, reason: string) returns (cookie: nat)
      requires backend.logind.Wired() && backend.listener == this && backend.logind.listener == backend
      modifies this`cookieSeed, this`inhibit, this`cookies, backend.logind`pending
      ensures cookie == old(cookieSeed)
      ensures backend.logind.Locks() == LockSpec.Inhibit(old(backend.logind.Locks()), appName, reason)
    {
      cookie := cookieSeed;
      cookieSeed := (cookieSeed + 1) % COOKIE_LIMIT;
      inhibit := inhibit[cookie := Entry(appName, reason)];
      cookies := cookies + [cookie];
      backend.InhibitIdle(appName, reason);
    }

    method UnInhibit(cookie: nat)
      requires backend.logind.Wired() && backend.listener == this && backend.logind.listener == backend
      modifies this`inhibit, this`inhibitFd, backend`fds
      modifies backend.logind`inhibitFds, backend.logind`released, backend.logind`changes
      ensures backend.logind.Locks() == LockSpec.UnInhibit(old(backend.logind.Locks()), cookie)
      ensures backend.logind.Link() == old(backend.logind.Link())
    {
      var fd := if cookie in inhibitFd then inhibitFd[cookie] else -1;
      if fd != -1 {
        backend.logind.Uninhibit(fd);
        inhibit := inhibit - {cookie};
        inhibitFd := inhibitFd - {cookie};
      }
    }

    method HandleLock()
      modifies this`active
      ensures active
    {
      active := true;
    }

    method HandleUnlock()
      modifies this`active
      ensures !active
    {
      active := false;
    }

    /** Walks the cookies in ascending order and stops at the first one for this owner and reason. */
    method HandleInhibited(who: string, why: string, fd: int)
      modifies this`inhibitFd
      ensures var cs := CookiesFor(inhibit, Entry(who, why));
        inhibitFd == if cs == {} then old(inhibitFd) else old(inhibitFd)[Least(cs) := fd]
    {
      var keys := inhibit.Keys;
      while keys != {}
        invariant keys <= inhibit.Keys && inhibitFd == old(inhibitFd)
        invariant CookiesFor(inhibit, Entry(who, why)) <= keys
        decreases keys
      {
        LeastExists(keys);
        var cookie :| cookie in keys && forall k | k in keys :: cookie <= k;
        if inhibit[cookie].who == who && inhibit[cookie].why == why {
          assert IsLeast(CookiesFor(inhibit, Entry(who, why)), cookie);
          inhibitFd := inhibitFd[cookie := fd];
          break;
        }
        keys := keys - {cookie};
      }
    }
  }

  /** The objects as the session manager builds them, before any event is delivered. */
  method Assemble() returns (saver: ScreenSaver)
    ensures fresh(saver) && fresh(saver.backend) && fresh(saver.backend.logind)
    ensures saver.backend.listener == saver && saver.backend.logind.listener == saver.backend
    ensures saver.backend.logind.Wired()
    ensures saver.backend.logind.Locks() == INITIAL && saver.backend.logind.Link() == UNLINKED
  {
    var logind := new Logind();
    var backend := new LogindBackend(logind);
    saver := new ScreenSaver(backend);
  }
}
