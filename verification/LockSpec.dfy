/** The inhibitor-lock protocol as a state machine over the three objects that share it: the cookies of
    ScreenSaver, the owner index of LogindBackend, and the open descriptors of Logind.

    A Qt signal between the three objects is a direct call, so one step of the machine covers everything
    that happens before control returns to the event loop. */
module LockSpec {
  import opened Traces
  import opened KeyOrder

  /** Cookies are a 32-bit unsigned counter. */
  const COOKIE_LIMIT := 0x1_0000_0000

  datatype What = Shutdown | Sleep | Idle | PowerKey | SuspendKey | HibernateKey | LidSwitch

  datatype Mode = Block | Delay

  /** One Inhibit call waiting for logind's reply. */
  datatype Request = Request(who: string, why: string, what: set<What>, mode: Mode)

  datatype Entry = Entry(who: string, why: string)

  datatype Locks = Locks(
    // ScreenSaver: cookieSeed, m_inhibit, m_inhibitFd, m_active
    seed: nat, inhibit: map<nat, Entry>, inhibitFd: map<nat, int>, active: bool,
    // LogindBackend: m_fds
    fds: map<string, int>,
    // Logind: isConnected, inhibitFds, and the calls in flight
    connected: bool, inhibitFds: seq<int>, pending: multiset<Request>,
    // What the outside world has seen: cookies handed out, descriptors duplicated and closed, and the
    // values of inhibitedChanged
    cookies: seq<nat>, acquired: seq<int>, released: seq<int>, changes: seq<bool>)

  const INITIAL := Locks(0, map[], map[], false, map[], false, [], multiset{}, [], [], [], [])

  // ---------- Logind ----------

  predicate IsInhibited(s: Locks) {
    |s.inhibitFds| > 0
  }

  /** Logind::inhibit: nothing is sent while the link is down. */
  function Send(s: Locks, r: Request): Locks {
    if s.connected then s.(pending := s.pending + multiset{r}) else s
  }

  /** The reply handler of Logind::inhibit up to its inhibited signal. */
  function Open(s: Locks, fd: int): Locks {
    var held := s.inhibitFds + [fd];
    s.(inhibitFds := held, acquired := s.acquired + [fd],
       changes := if |held| == 1 then s.changes + [true] else s.changes)
  }

  /** Logind::uninhibit, with LogindBackend::handleUninhibited run by its last signal. */
  ghost function Close(s: Locks, fd: int): Locks {
    if !s.connected || fd !in s.inhibitFds then s
    else
      var held := RemoveOne(s.inhibitFds, fd);
      Unindex(s.(released := s.released + [fd], inhibitFds := held,
                 changes := if |held| == 0 then s.changes + [false] else s.changes), fd)
  }

  // ---------- LogindBackend ----------

  const IDLE_ONLY: set<What> := {Idle}

  /** LogindBackend::inhibitIdle. */
  function IdleRequest(who: string, why: string): Request {
    Request(who, why, IDLE_ONLY, Block)
  }

  const POWER_BUTTON := Request("Liri/PowerButton", "Liri handles the power button itself",
                                {PowerKey, SuspendKey, HibernateKey}, Block)
  const SLEEP := Request("Liri/Sleep", "Liri needs to logout before shutdown and lock the screen before sleep",
                         {Shutdown, Sleep}, Delay)
  const LID := Request("Liri/Lid", "Liri wants to handle when the lid is closed", {LidSwitch}, Block)

  /** LogindBackend::setupInhibitors. */
  function Setup(s: Locks): Locks {
    Send(Send(Send(s, POWER_BUTTON), SLEEP), LID)
  }

  /** LogindBackend::handleUninhibited: an empty owner name is never removed. */
  ghost function Unindex(s: Locks, fd: int): Locks {
    var who := KeyOf(s.fds, fd);
    if who == "" then s else s.(fds := s.fds - {who})
  }

  /** One turn of the drain loop: uninhibit the first descriptor of m_fds. */
  ghost function DrainOne(s: Locks): Locks
    requires s.fds != map[]
  {
    Close(s, s.fds[First(s.fds.Keys)])
  }

  /** At most n turns of the drain loop. */
  ghost function DrainFor(s: Locks, n: nat): Locks
    decreases n
  {
    if n == 0 || s.fds == map[] then s else DrainFor(DrainOne(s), n - 1)
  }

  /** The drain loop exits after finitely many turns. */
  ghost predicate DrainEnds(s: Locks) {
    exists n: nat :: DrainFor(s, n).fds == map[]
  }

  /** The state the drain loop leaves when it exits: every turn removes an entry (DrainExits). */
  ghost function Drain(s: Locks): Locks {
    DrainFor(s, |s.fds|)
  }

  // ---------- ScreenSaver ----------

  ghost function CookiesFor(inhibit: map<nat, Entry>, e: Entry): set<nat> {
    set c | c in inhibit && inhibit[c] == e
  }

  /** ScreenSaver::handleInhibited: the descriptor goes to the first cookie with this owner and reason. */
  ghost function Attach(s: Locks, who: string, why: string, fd: int): Locks {
    var cs := CookiesFor(s.inhibit, Entry(who, why));
    if cs == {} then s else s.(inhibitFd := s.inhibitFd[Least(cs) := fd])
  }

  // ---------- Steps ----------

  function Inhibit(s: Locks, who: string, why: string): Locks {
    Send(s.(seed := (s.seed + 1) % COOKIE_LIMIT, inhibit := s.inhibit[s.seed := Entry(who, why)],
            cookies := s.cookies + [s.seed]),
         IdleRequest(who, why))
  }

  function FdOf(s: Locks, cookie: nat): int {
    if cookie in s.inhibitFd then s.inhibitFd[cookie] else -1
  }

  ghost function UnInhibit(s: Locks, cookie: nat): Locks {
    var fd := FdOf(s, cookie);
    if fd == -1 then s
    else
      var t := Close(s, fd);
      t.(inhibit := t.inhibit - {cookie}, inhibitFd := t.inhibitFd - {cookie})
  }

  ghost function Granted(s: Locks, r: Request, fd: int): Locks {
    var t := Open(s.(pending := s.pending - multiset{r}), fd);
    Attach(t.(fds := t.fds[r.who := fd]), r.who, r.why, fd)
  }

  /** What a grant changes and what it keeps, field by field. */
  ghost predicate Took(s: Locks, r: Request, fd: int, t: Locks) {
    && t.inhibitFds == s.inhibitFds + [fd] && t.fds == s.fds[r.who := fd]
    && t.acquired == s.acquired + [fd] && t.released == s.released
    && t.changes == (if s.inhibitFds == [] then s.changes + [true] else s.changes)
    && t.pending == s.pending - multiset{r} && t.connected == s.connected && t.active == s.active
    && t.inhibit == s.inhibit && t.seed == s.seed && t.cookies == s.cookies
    && var cs := CookiesFor(s.inhibit, Entry(r.who, r.why));
       t.inhibitFd == if cs == {} then s.inhibitFd else s.inhibitFd[Least(cs) := fd]
  }

  lemma GrantTook(s: Locks, r: Request, fd: int)
    ensures Took(s, r, fd, Granted(s, r, fd))
  {
  }

  function Refused(s: Locks, r: Request): Locks {
    s.(pending := s.pending - multiset{r})
  }

  /** LogindBackend::handleSessionLocked, then ScreenSaver::handleLock. */
  ghost function Lock(s: Locks): Locks {
    Drain(s).(active := true)
  }

  /** LogindBackend::handleSessionUnlocked, then ScreenSaver::handleUnlock. */
  function Unlock(s: Locks): Locks {
    Setup(s).(active := false)
  }

  /** LogindBackend::prepareForSleep emits sessionLocked without draining anything. */
  function PrepareForSleep(s: Locks, before: bool): Locks {
    if before then s.(active := true) else s
  }

  datatype Step =
    | StepInhibit(who: string, why: string)
    | StepUnInhibit(cookie: nat)
    | StepGranted(r: Request, fd: int)
    | StepRefused(r: Request)
    | StepLock
    | StepUnlock
    | StepPrepareForSleep(before: bool)
    | StepLink(up: bool)

  ghost function Apply(s: Locks, step: Step): Locks {
    match step
    case StepInhibit(who, why) => Inhibit(s, who, why)
    case StepUnInhibit(cookie) => UnInhibit(s, cookie)
    case StepGranted(r, fd) => Granted(s, r, fd)
    case StepRefused(r) => Refused(s, r)
    case StepLock => Lock(s)
    case StepUnlock => Unlock(s)
    case StepPrepareForSleep(before) => PrepareForSleep(s, before)
    case StepLink(up) => s.(connected := up)
  }

  /** What dup returns: a number that is not open, or -1 when it fails, as often as that happens. */
  predicate FromDup(s: Locks, fd: int) {
    fd == -1 || fd !in s.inhibitFds
  }

  /** What the environment guarantees: a reply answers a call in flight, its number comes from dup, and a lock
      signal is over only when its drain loop exits. */
  ghost predicate Enabled(s: Locks, step: Step) {
    match step
    case StepGranted(r, fd) => r in s.pending && FromDup(s, fd)
    case StepRefused(r) => r in s.pending
    case StepLock => DrainEnds(s)
    case _ => true
  }

  ghost predicate Legal(s: Locks, steps: seq<Step>)
    decreases |steps|
  {
    steps == [] || (Enabled(s, steps[0]) && Legal(Apply(s, steps[0]), steps[1..]))
  }

  ghost function Exec(s: Locks, steps: seq<Step>): Locks
    decreases |steps|
  {
    if steps == [] then s else Exec(Apply(s, steps[0]), steps[1..])
  }
}
