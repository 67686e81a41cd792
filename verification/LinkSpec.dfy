/** The link to logind as a state machine: registration with its session lookups, loss of the service, and
    the three session properties with their change signals. */
module LinkSpec {
  import opened Traces
  import opened Wrappers

  /** What the blocking calls of one registration answer: the path of the user's session, if one is found
      (getUserSession), whether XDG_SESSION_ID is set, and the paths by session id and by process id. */
  datatype Lookups = Lookups(user: Option<string>, envSet: bool, byId: Option<string>, byPid: Option<string>)

  datatype Link = Link(
    connected: bool, path: string, active: bool, vt: int, seat: string,
    // The values of connectedChanged, sessionActiveChanged, vtNumberChanged and seatChanged
    connectedLog: seq<bool>, activeLog: seq<bool>, vtLog: seq<int>, seatLog: seq<string>,
    // The session paths that were sent SetIdleHint(false)
    hints: seq<string>)

  const UNLINKED := Link(false, "", false, -1, "", [], [], [], [], [])

  /** The session path after the lookups; a path found earlier stays when every lookup fails. */
  function FoundPath(path: string, k: Lookups): string {
    if k.user.Some? then k.user.value
    else
      var fromId := if k.envSet && k.byId.Some? then k.byId.value else "";
      var afterId := if k.envSet && k.byId.Some? then k.byId.value else path;
      if fromId == "" && k.byPid.Some? then k.byPid.value else afterId
  }

  /** LogindBackend::handleConnectedChanged: clear the idle hint on a new connection. */
  function Hint(l: Link, connected: bool): Link {
    if connected && l.connected && l.path != "" then l.(hints := l.hints + [l.path]) else l
  }

  /** LogindPrivate::_q_serviceRegistered. */
  function LinkUp(l: Link, k: Lookups): Link {
    if l.connected then l
    else
      var path := FoundPath(l.path, k);
      if path == "" then l.(path := path)
      else Hint(l.(connected := true, path := path, connectedLog := l.connectedLog + [true]), true)
  }

  function SetActive(l: Link, active: bool): Link {
    if l.active == active then l else l.(active := active, activeLog := l.activeLog + [active])
  }

  function SetVt(l: Link, vt: int): Link {
    if l.vt == vt then l else l.(vt := vt, vtLog := l.vtLog + [vt])
  }

  function SetSeat(l: Link, seat: string): Link {
    if l.seat == seat then l else l.(seat := seat, seatLog := l.seatLog + [seat])
  }

  /** LogindPrivate::_q_serviceUnregistered. */
  function LinkDown(l: Link): Link {
    SetSeat(SetVt(SetActive(l.(connected := false, connectedLog := l.connectedLog + [false]), false), -1), "")
  }

  /** The conversion of logind's unsigned VT number to a signed 32-bit integer. */
  function AsInt32(u: nat): int
    requires u < 0x1_0000_0000
  {
    if u < 0x8000_0000 then u else u - 0x1_0000_0000
  }

  type UInt32 = u: nat | u < 0x1_0000_0000

  /** Service events, and successful replies to property reads; a failed reply changes nothing. */
  datatype LinkStep =
    | ServiceUp(k: Lookups)
    | ServiceDown
    | ActiveReply(active: bool)
    | VtReply(vtnr: UInt32)
    | SeatReply(seat: string)

  function LinkApply(l: Link, step: LinkStep): Link {
    match step
    case ServiceUp(k) => LinkUp(l, k)
    case ServiceDown => LinkDown(l)
    case ActiveReply(active) => SetActive(l, active)
    case VtReply(vtnr) => SetVt(l, AsInt32(vtnr))
    case SeatReply(seat) => SetSeat(l, seat)
  }

  function LinkExec(l: Link, steps: seq<LinkStep>): Link
    decreases |steps|
  {
    if steps == [] then l else LinkExec(LinkApply(l, steps[0]), steps[1..])
  }

  // ---------- What replies and service events do ----------

  /** A reply stores its value, whatever the state of the link, and touches nothing else but the log of its
      signal; the VT number is the reply's modulo 2^32 in the signed range. */
  lemma RepliesStore(l: Link, active: bool, vtnr: UInt32, seat: string)
    ensures var t := LinkApply(l, ActiveReply(active));
      t.active == active && t == l.(active := t.active, activeLog := t.activeLog)
    ensures var t := LinkApply(l, VtReply(vtnr));
      && -0x8000_0000 <= t.vt < 0x8000_0000 && (t.vt - vtnr) % 0x1_0000_0000 == 0
      && t == l.(vt := t.vt, vtLog := t.vtLog)
    ensures var t := LinkApply(l, SeatReply(seat));
      t.seat == seat && t == l.(seat := t.seat, seatLog := t.seatLog)
  {
  }

  /** A registration does nothing on a link that is up; one that connects emits connectedChanged(true) and clears
      the idle hint of the session it found; one that fails stores at most the path. The loss of the service
      resets the three properties and keeps the path. */
  lemma ServiceEffects(l: Link, k: Lookups)
    ensures var t := LinkApply(l, ServiceUp(k));
      if l.connected then t == l
      else if t.connected then
        t == l.(connected := true, path := t.path, connectedLog := l.connectedLog + [true], hints := l.hints + [t.path])
      else t == l.(path := t.path)
    ensures var t := LinkApply(l, ServiceDown);
      && !t.connected && !t.active && t.vt == -1 && t.seat == ""
      && t.path == l.path && t.hints == l.hints && t.connectedLog == l.connectedLog + [false]
  {
  }

  lemma {:induction false} ActiveKept(l: Link, steps: seq<LinkStep>)
    requires forall i :: 0 <= i < |steps| ==> !steps[i].ActiveReply? && !steps[i].ServiceDown?
    ensures LinkExec(l, steps).active == l.active
    decreases |steps|
  {
    if steps == [] {
    } else {
      ActiveKept(LinkApply(l, steps[0]), steps[1..]);
    }
  }

  lemma {:induction false} VtKept(l: Link, steps: seq<LinkStep>)
    requires forall i :: 0 <= i < |steps| ==> !steps[i].VtReply? && !steps[i].ServiceDown?
    ensures LinkExec(l, steps).vt == l.vt
    decreases |steps|
  {
    if steps == [] {
    } else {
      VtKept(LinkApply(l, steps[0]), steps[1..]);
    }
  }

  lemma {:induction false} SeatKept(l: Link, steps: seq<LinkStep>)
    requires forall i :: 0 <= i < |steps| ==> !steps[i].SeatReply? && !steps[i].ServiceDown?
    ensures LinkExec(l, steps).seat == l.seat
    decreases |steps|
  {
    if steps == [] {
    } else {
      SeatKept(LinkApply(l, steps[0]), steps[1..]);
    }
  }

  /** At the end of every run the session's activity is that of the last reply for it since the last loss of the
      service, and inactive if there was none since. The next two say the same of the VT number and the seat. */
  lemma {:induction false} LastActive(l: Link, steps: seq<LinkStep>, i: nat)
    requires i < |steps| && (steps[i].ActiveReply? || steps[i].ServiceDown?)
    requires forall j :: i < j < |steps| ==> !steps[j].ActiveReply? && !steps[j].ServiceDown?
    ensures LinkExec(l, steps).active <==> steps[i] == ActiveReply(true)
    decreases i
  {
    if i == 0 {
      ActiveKept(LinkApply(l, steps[0]), steps[1..]);
    } else {
      LastActive(LinkApply(l, steps[0]), steps[1..], i - 1);
    }
  }

  lemma {:induction false} LastVt(l: Link, steps: seq<LinkStep>, i: nat)
    requires i < |steps| && (steps[i].VtReply? || steps[i].ServiceDown?)
    requires forall j :: i < j < |steps| ==> !steps[j].VtReply? && !steps[j].ServiceDown?
    ensures var vt := LinkExec(l, steps).vt;
      if steps[i].VtReply? then
        -0x8000_0000 <= vt < 0x8000_0000 && (vt - steps[i].vtnr) % 0x1_0000_0000 == 0
      else vt == -1
    decreases i
  {
    if i == 0 {
      VtKept(LinkApply(l, steps[0]), steps[1..]);
    } else {
      LastVt(LinkApply(l, steps[0]), steps[1..], i - 1);
    }
  }

  lemma {:induction false} LastSeat(l: Link, steps: seq<LinkStep>, i: nat)
    requires i < |steps| && (steps[i].SeatReply? || steps[i].ServiceDown?)
    requires forall j :: i < j < |steps| ==> !steps[j].SeatReply? && !steps[j].ServiceDown?
    ensures LinkExec(l, steps).seat == if steps[i].SeatReply? then steps[i].seat else ""
    decreases i
  {
    if i == 0 {
      SeatKept(LinkApply(l, steps[0]), steps[1..]);
    } else {
      LastSeat(LinkApply(l, steps[0]), steps[1..], i - 1);
    }
  }

  // ---------- Edge-triggered signals ----------

  /** Each property signal reports exactly the changes of its property. */
  ghost predicate Edges(l: Link) {
    && EdgeLog(false, l.activeLog, l.active)
    && EdgeLog(-1, l.vtLog, l.vt)
    && EdgeLog("", l.seatLog, l.seat)
  }

  /** connectedChanged(true) is never emitted twice without a false between; a connection has a session
      path, and so does every idle hint; the hints number the connections. */
  ghost predicate Connections(l: Link) {
    && (l.connected ==> l.path != "")
    && (l.connected <==> l.connectedLog != [] && l.connectedLog[|l.connectedLog| - 1])
    && (forall i :: 0 <= i < |l.connectedLog| - 1 ==> !(l.connectedLog[i] && l.connectedLog[i + 1]))
    && |l.hints| == multiset(l.connectedLog)[true]
    && (forall i :: 0 <= i < |l.hints| ==> l.hints[i] != "")
  }

  lemma ActiveKeeps(l: Link, active: bool)
    requires Edges(l) && Connections(l)
    ensures Edges(SetActive(l, active)) && Connections(SetActive(l, active))
  {
    if l.active != active {
      EdgeLogGrows(false, l.activeLog, l.active, active);
    }
  }

  lemma VtKeeps(l: Link, vt: int)
    requires Edges(l) && Connections(l)
    ensures Edges(SetVt(l, vt)) && Connections(SetVt(l, vt))
  {
    if l.vt != vt {
      EdgeLogGrows(-1, l.vtLog, l.vt, vt);
    }
  }

  lemma SeatKeeps(l: Link, seat: string)
    requires Edges(l) && Connections(l)
    ensures Edges(SetSeat(l, seat)) && Connections(SetSeat(l, seat))
  {
    if l.seat != seat {
      EdgeLogGrows("", l.seatLog, l.seat, seat);
    }
  }

  lemma ConnectKeeps(l: Link, path: string)
    requires Connections(l) && !l.connected && path != ""
    ensures Connections(l.(connected := true, path := path, connectedLog := l.connectedLog + [true],
                           hints := l.hints + [path]))
  {
    assert multiset(l.connectedLog + [true])[true] == multiset(l.connectedLog)[true] + 1;
  }

  lemma UpKeeps(l: Link, k: Lookups)
    requires Edges(l) && Connections(l)
    ensures Edges(LinkUp(l, k)) && Connections(LinkUp(l, k))
  {
    var path := FoundPath(l.path, k);
    if !l.connected && path != "" {
      ConnectKeeps(l, path);
    }
  }

  lemma DownKeeps(l: Link)
    requires Edges(l) && Connections(l)
    ensures Edges(LinkDown(l)) && Connections(LinkDown(l))
  {
    var d := l.(connected := false, connectedLog := l.connectedLog + [false]);
    assert Connections(d);
    ActiveKeeps(d, false);
    VtKeeps(SetActive(d, false), -1);
    SeatKeeps(SetVt(SetActive(d, false), -1), "");
  }

  lemma LinkStepKeeps(l: Link, step: LinkStep)
    requires Edges(l) && Connections(l)
    ensures Edges(LinkApply(l, step)) && Connections(LinkApply(l, step))
  {
    match step
    case ServiceUp(k) => UpKeeps(l, k);
    case ServiceDown => DownKeeps(l);
    case ActiveReply(active) => ActiveKeeps(l, active);
    case VtReply(vtnr) => VtKeeps(l, AsInt32(vtnr));
    case SeatReply(seat) => SeatKeeps(l, seat);
  }

  /** Over every run the values emitted for the session's activity, VT number and seat never repeat at once,
      start away from the initial value and end at the current property, across the reply handlers and the
      reset on disconnection; and the connection facts above hold. */
  lemma {:induction false} LinkRun(l: Link, steps: seq<LinkStep>)
    requires Edges(l) && Connections(l)
    ensures Edges(LinkExec(l, steps)) && Connections(LinkExec(l, steps))
    decreases |steps|
  {
    if steps == [] {
    } else {
      LinkStepKeeps(l, steps[0]);
      LinkRun(LinkApply(l, steps[0]), steps[1..]);
    }
  }

  // ---------- The reset on disconnection ----------

  ghost predicate ResetWhenDown(l: Link) {
    l.connected || (!l.active && l.vt == -1 && l.seat == "")
  }

  /** A reply that does not outlive its connection, or that reports the reset value anyway. */
  predicate Timely(l: Link, step: LinkStep) {
    match step
    case ActiveReply(active) => l.connected || !active
    case VtReply(vtnr) => l.connected || vtnr == 0xffff_ffff
    case SeatReply(seat) => l.connected || seat == ""
    case _ => true
  }

  /** A step keeps "not connected means inactive, no VT, no seat" if and only if it is timely: the handlers
      do not check the connection themselves. */
  lemma ResetKeptIff(l: Link, step: LinkStep)
    requires ResetWhenDown(l)
    ensures ResetWhenDown(LinkApply(l, step)) <==> Timely(l, step)
  {
  }

  ghost predicate AllTimely(l: Link, steps: seq<LinkStep>)
    decreases |steps|
  {
    steps == [] || (Timely(l, steps[0]) && AllTimely(LinkApply(l, steps[0]), steps[1..]))
  }

  lemma {:induction false} ResetRun(l: Link, steps: seq<LinkStep>)
    requires ResetWhenDown(l) && AllTimely(l, steps)
    ensures ResetWhenDown(LinkExec(l, steps))
    decreases |steps|
  {
    if steps == [] {
    } else {
      ResetKeptIff(l, steps[0]);
      ResetRun(LinkApply(l, steps[0]), steps[1..]);
    }
  }

  /** A late reply does break it. */
  lemma LateReply()
    ensures var l := LinkExec(UNLINKED, [ServiceUp(Lookups(Some("/s"), false, None, None)), ServiceDown,
                                         ActiveReply(true)]);
      !l.connected && l.active
  {
  }

  // ---------- When a registration connects ----------

  /** The paths that the lookups of a registration yield, best first; a session found for the user ends the
      search. */
  function Candidates(k: Lookups): seq<string> {
    if k.user.Some? then [k.user.value]
    else
      (if k.envSet && k.byId.Some? then [k.byId.value] else []) + (if k.byPid.Some? then [k.byPid.value] else [])
  }

  function FirstNonEmpty(paths: seq<string>): string {
    if paths == [] then "" else if paths[0] != "" then paths[0] else FirstNonEmpty(paths[1..])
  }

  /** A registration ends connected if and only if the link is up already, or some lookup gives a path, or all
      lookups fail and the path of an earlier connection is still recorded: losing the service never clears
      it. The new session path is the first usable candidate. */
  lemma ConnectsIff(l: Link, k: Lookups)
    requires Connections(l)
    ensures LinkUp(l, k).connected <==>
            l.connected || FirstNonEmpty(Candidates(k)) != "" || (Candidates(k) == [] && l.path != "")
    ensures !l.connected && FirstNonEmpty(Candidates(k)) != "" ==>
            LinkUp(l, k).path == FirstNonEmpty(Candidates(k))
    ensures !l.connected && FirstNonEmpty(Candidates(k)) == "" ==>
            LinkUp(l, k).path == if Candidates(k) == [] then l.path else ""
    ensures LinkDown(l).path == l.path
  {
    var id := if k.envSet && k.byId.Some? then [k.byId.value] else [];
    var pid := if k.byPid.Some? then [k.byPid.value] else [];
    if k.user.None? {
      assert Candidates(k) == id + pid;
      assert FirstNonEmpty(pid) == if pid == [] then "" else pid[0];
      assert id != [] ==> (id + pid)[0] == id[0] && (id + pid)[1..] == pid;
      assert id == [] ==> id + pid == pid;
    }
  }

  lemma UnlinkedKeeps()
    ensures Edges(UNLINKED) && Connections(UNLINKED) && ResetWhenDown(UNLINKED)
  {
  }

  /** The facts above for every run from startup, spelled out. */
  lemma LinkFromStartup(steps: seq<LinkStep>)
    ensures var l := LinkExec(UNLINKED, steps);
      && Edges(l) && Connections(l)
      && (forall i :: 0 <= i < |l.activeLog| ==> l.activeLog[i] == (i % 2 == 0))
      && (AllTimely(UNLINKED, steps) && !l.connected ==> !l.active && l.vt == -1 && l.seat == "")
  {
    UnlinkedKeeps();
    LinkRun(UNLINKED, steps);
    if AllTimely(UNLINKED, steps) {
      ResetRun(UNLINKED, steps);
    }
    var l := LinkExec(UNLINKED, steps);
    forall i: nat | i < |l.activeLog| ensures l.activeLog[i] == (i % 2 == 0) {
      EdgeLogAlternates(l.activeLog, l.active, i);
    }
  }
}
