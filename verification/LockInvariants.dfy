/** What every run of the inhibitor-lock protocol keeps, and when its drain loop exits. */
module LockInvariants {
  import opened Traces
  import opened KeyOrder
  import opened LockSpec

  // ---------- Counting ----------

  /** How often a number is in the list of descriptors. */
  function Count(s: Locks, x: int): nat {
    multiset(s.inhibitFds)[x]
  }

  /** The owner names under which the index holds a number. */
  ghost function OwnersOf(fds: map<string, int>, x: int): set<string> {
    set a | a in fds && fds[a] == x
  }

  /** How many list entries of a number have no index entry of their own. */
  ghost function Loose(s: Locks, x: int): int {
    Count(s, x) - |OwnersOf(s.fds, x)|
  }

  lemma OwnersAfterDrop(fds: map<string, int>, k: string, x: int)
    requires k in fds
    ensures |OwnersOf(fds - {k}, x)| == |OwnersOf(fds, x)| - (if fds[k] == x then 1 else 0)
  {
    assert OwnersOf(fds - {k}, x) == OwnersOf(fds, x) - {k};
  }

  lemma OwnersAfterPut(fds: map<string, int>, who: string, fd: int, x: int)
    ensures |OwnersOf(fds[who := fd], x)|
         == |OwnersOf(fds, x)| - (if who in fds && fds[who] == x then 1 else 0) + (if fd == x then 1 else 0)
  {
    var before, after := OwnersOf(fds, x), OwnersOf(fds[who := fd], x);
    assert after - {who} == before - {who};
    WithOrWithout(before, who);
    WithOrWithout(after, who);
    assert who in before <==> who in fds && fds[who] == x;
    assert who in after <==> fd == x;
  }

  lemma WithOrWithout(a: set<string>, x: string)
    ensures |a| == |a - {x}| + (if x in a then 1 else 0)
  {
    assert a == if x in a then (a - {x}) + {x} else a - {x};
  }

  // ---------- The invariant ----------

  /** The owner index and the list of descriptors agree: every index entry has a list entry of its own. */
  ghost predicate Indexed(s: Locks) {
    "" !in s.fds && forall x :: Loose(s, x) >= 0
  }

  /** No descriptor is listed twice; only the -1 of a failed dup can be. */
  ghost predicate OpenOnce(s: Locks) {
    forall x :: x != -1 ==> Count(s, x) <= 1
  }

  ghost predicate Conserved(s: Locks) {
    multiset(s.acquired) == multiset(s.released) + multiset(s.inhibitFds)
  }

  /** What holds whatever numbers dup returns. */
  ghost predicate Ledger(s: Locks) {
    Conserved(s) && EdgeLog(false, s.changes, IsInhibited(s))
  }

  ghost predicate CookiesCounted(s: Locks) {
    && s.seed == |s.cookies| % COOKIE_LIMIT
    && (forall i :: 0 <= i < |s.cookies| ==> s.cookies[i] == i % COOKIE_LIMIT)
    && (forall c :: c in s.inhibit ==> c in s.cookies)
    && s.inhibitFd.Keys <= s.inhibit.Keys
  }

  /** The invariant of every run, with no assumption on names, reasons, order or connection. */
  ghost predicate Inv(s: Locks) {
    OpenOnce(s) && ("" in s.fds || Indexed(s)) && Ledger(s) && CookiesCounted(s)
  }

  /** Distinct owners have distinct descriptors, save for failed dups, and all of them are listed. */
  lemma IndexedOwners(s: Locks, a: string, b: string)
    requires Indexed(s) && OpenOnce(s) && a in s.fds && b in s.fds
    ensures s.fds[a] in s.inhibitFds
    ensures s.fds[a] == s.fds[b] != -1 ==> a == b
  {
    var x := s.fds[a];
    assert Loose(s, x) >= 0;
    assert a in OwnersOf(s.fds, x);
    if s.fds[b] == x && a != b {
      assert {a, b} <= OwnersOf(s.fds, x);
      SubsetSize({a, b}, OwnersOf(s.fds, x));
    }
  }

  lemma {:induction false} SubsetSize(a: set<string>, b: set<string>)
    requires a <= b
    ensures |a| <= |b|
  {
    if a == {} {
    } else {
      var x :| x in a;
      SubsetSize(a - {x}, b - {x});
    }
  }

  // ---------- Close ----------

  /** Closing takes one list entry and at most the one index entry that holds it. */
  lemma CloseEffect(s: Locks, fd: int)
    ensures var t := Close(s, fd);
      && (s.connected && fd in s.inhibitFds ==>
            && multiset(t.inhibitFds) == multiset(s.inhibitFds) - multiset{fd}
            && t.released == s.released + [fd])
      && (!(s.connected && fd in s.inhibitFds) ==> t == s)
      && t == s.(released := t.released, inhibitFds := t.inhibitFds, changes := t.changes, fds := t.fds)
      && (forall a :: a in t.fds ==> a in s.fds && t.fds[a] == s.fds[a])
      && (forall a :: a in s.fds && s.fds[a] != fd ==> a in t.fds)
      && ("" in s.fds ==> "" in t.fds)
  {
    RemoveOneBag(s.inhibitFds, fd);
  }

  lemma CloseConserves(s: Locks, fd: int)
    requires Conserved(s)
    ensures Conserved(Close(s, fd))
  {
    if s.connected && fd in s.inhibitFds {
      RemoveOneBag(s.inhibitFds, fd);
      BagMove(multiset(s.acquired), multiset(s.released), multiset(s.inhibitFds), fd);
    }
  }

  lemma BagMove(all: multiset<int>, out: multiset<int>, held: multiset<int>, fd: int)
    requires all == out + held && fd in held
    ensures all == (out + multiset{fd}) + (held - multiset{fd})
  {
    assert multiset{fd} <= held;
  }

  lemma CloseSignals(s: Locks, fd: int)
    requires EdgeLog(false, s.changes, IsInhibited(s))
    ensures EdgeLog(false, Close(s, fd).changes, IsInhibited(Close(s, fd)))
  {
  }

  lemma CloseLedger(s: Locks, fd: int)
    requires Ledger(s)
    ensures Ledger(Close(s, fd))
  {
    CloseConserves(s, fd);
    CloseSignals(s, fd);
  }

  lemma CloseOnce(s: Locks, fd: int)
    requires OpenOnce(s)
    ensures OpenOnce(Close(s, fd))
  {
    CloseEffect(s, fd);
    var t := Close(s, fd);
    forall x | x != -1 ensures Count(t, x) <= 1 {
      assert Count(s, x) <= 1;
    }
  }

  /** Closing never leaves more loose entries, and takes one only if the index does not know the number, or
      knows it under the empty name. */
  lemma CloseLoose(s: Locks, fd: int, x: int)
    ensures Loose(Close(s, fd), x) <= Loose(s, x)
    ensures x != fd || ("" !in s.fds && OwnersOf(s.fds, fd) != {}) ==> Loose(Close(s, fd), x) == Loose(s, x)
    ensures OwnersOf(s.fds, fd) == {} ==> Close(s, fd).fds == s.fds
  {
    if s.connected && fd in s.inhibitFds {
      RemoveOneBag(s.inhibitFds, fd);
      KeyOfOwner(s.fds, fd);
      if OwnersOf(s.fds, fd) != {} {
        OwnersAfterDrop(s.fds, KeyOf(s.fds, fd), x);
      }
    }
  }

  lemma KeyOfOwner(fds: map<string, int>, fd: int)
    ensures if OwnersOf(fds, fd) == {} then KeyOf(fds, fd) == ""
            else KeyOf(fds, fd) in fds && fds[KeyOf(fds, fd)] == fd
  {
    assert forall a :: a in fds && fds[a] == fd <==> a in OwnersOf(fds, fd);
    if OwnersOf(fds, fd) != {} {
      var a :| a in OwnersOf(fds, fd);
    }
  }

  /** A connected release of an indexed number removes from the index exactly the first owner that holds it. */
  lemma CloseIndexed(s: Locks, fd: int)
    requires Indexed(s)
    ensures Indexed(Close(s, fd))
    ensures forall a :: s.connected && IsFirst(OwnersOf(s.fds, fd), a) ==> Close(s, fd).fds == s.fds - {a}
  {
    CloseEffect(s, fd);
    forall x ensures Loose(Close(s, fd), x) >= 0 {
      assert Loose(s, x) >= 0;
      CloseLoose(s, fd, x);
    }
    forall a | s.connected && IsFirst(OwnersOf(s.fds, fd), a) ensures Close(s, fd).fds == s.fds - {a} {
      assert Loose(s, fd) >= 0;
      FirstUnique(OwnersOf(s.fds, fd), a);
      KeyOfFirst(s.fds, fd);
    }
  }

  lemma KeyOfFirst(fds: map<string, int>, fd: int)
    requires OwnersOf(fds, fd) != {}
    ensures KeyOf(fds, fd) == First(OwnersOf(fds, fd))
  {
    assert OwnersOf(fds, fd) == set x | x in fds && fds[x] == fd;
  }

  /** The owner of a descriptor that is not a failed dup is its only one. */
  lemma SoleOwner(s: Locks, a: string)
    requires Indexed(s) && OpenOnce(s) && a in s.fds && s.fds[a] != -1
    ensures IsFirst(OwnersOf(s.fds, s.fds[a]), a) && Count(s, s.fds[a]) == 1 && Loose(s, s.fds[a]) == 0
  {
    var x := s.fds[a];
    forall b | b in OwnersOf(s.fds, x) ensures b == a {
      IndexedOwners(s, a, b);
    }
    assert OwnersOf(s.fds, x) == {a};
    Reflexive(a);
    assert Loose(s, x) >= 0 && Count(s, x) <= 1;
  }

  lemma CloseInv(s: Locks, fd: int)
    requires Inv(s)
    ensures Inv(Close(s, fd))
  {
    CloseOnce(s, fd);
    CloseLedger(s, fd);
    if Indexed(s) {
      CloseIndexed(s, fd);
    }
    CloseEffect(s, fd);
  }

  // ---------- The drain loop ----------

  /** The guard under which the drain loop of a lock signal exits. */
  predicate CanDrain(s: Locks) {
    s.fds == map[] || (s.connected && "" !in s.fds)
  }

  lemma {:induction false} DrainForInv(s: Locks, n: nat)
    requires Inv(s)
    ensures Inv(DrainFor(s, n))
    decreases n
  {
    if n == 0 || s.fds == map[] {
    } else {
      CloseInv(s, s.fds[First(s.fds.Keys)]);
      DrainForInv(DrainOne(s), n - 1);
    }
  }

  /** Without the guard no number of turns empties the index: the loop spins. */
  lemma {:induction false} DrainSpins(s: Locks, n: nat)
    requires !CanDrain(s)
    ensures DrainFor(s, n).fds != map[]
    decreases n
  {
    if n == 0 {
    } else {
      CloseEffect(s, s.fds[First(s.fds.Keys)]);
      assert !s.connected ==> DrainOne(s) == s;
      DrainSpins(DrainOne(s), n - 1);
    }
  }

  ghost predicate Sorted(names: seq<string>) {
    forall i, j :: 0 <= i < j < |names| ==> AtMost(names[i], names[j]) && names[i] != names[j]
  }

  lemma DropFirst(fds: map<string, int>)
    requires fds != map[]
    ensures |fds - {First(fds.Keys)}| == |fds| - 1
  {
    var k := First(fds.Keys);
    assert fds.Keys == (fds - {k}).Keys + {k};
  }

  /** The owner names in index order. */
  ghost function OwnerNames(fds: map<string, int>): (names: seq<string>)
    ensures |names| == |fds|
    ensures forall a :: a in names <==> a in fds
    ensures forall i :: 0 <= i < |names| ==> names[i] in fds
    decreases |fds|
  {
    if fds == map[] then []
    else
      DropFirst(fds);
      [First(fds.Keys)] + OwnerNames(fds - {First(fds.Keys)})
  }

  lemma SortedCons(k: string, rest: seq<string>)
    requires Sorted(rest) && forall i :: 0 <= i < |rest| ==> AtMost(k, rest[i]) && k != rest[i]
    ensures Sorted([k] + rest)
  {
  }

  lemma {:induction false} NamesSorted(fds: map<string, int>)
    ensures Sorted(OwnerNames(fds))
    decreases |fds|
  {
    if fds == map[] {
    } else {
      var k := First(fds.Keys);
      DropFirst(fds);
      NamesSorted(fds - {k});
      var rest := OwnerNames(fds - {k});
      forall i | 0 <= i < |rest| ensures AtMost(k, rest[i]) && k != rest[i] {
        assert rest[i] in fds - {k};
      }
      SortedCons(k, rest);
    }
  }

  ghost function ValuesAt(fds: map<string, int>, names: seq<string>): (values: seq<int>)
    requires forall i :: 0 <= i < |names| ==> names[i] in fds
    ensures |values| == |names|
  {
    seq(|names|, i requires 0 <= i < |names| => fds[names[i]])
  }

  lemma ValuesCons(fds: map<string, int>, k: string, rest: seq<string>)
    requires k in fds && forall i :: 0 <= i < |rest| ==> rest[i] in fds - {k}
    ensures ValuesAt(fds, [k] + rest) == [fds[k]] + ValuesAt(fds - {k}, rest)
  {
    forall i | 0 <= i < |rest| ensures ([k] + rest)[i + 1] == rest[i] {
    }
  }

  /** The indexed descriptors in the order of their owners' names. */
  ghost function Held(fds: map<string, int>): (held: seq<int>)
    ensures |held| == |fds|
  {
    ValuesAt(fds, OwnerNames(fds))
  }

  lemma NamesUnfold(fds: map<string, int>)
    requires fds != map[]
    ensures var k := First(fds.Keys); OwnerNames(fds) == [k] + OwnerNames(fds - {k})
  {
  }

  lemma HeldUnfold(fds: map<string, int>)
    requires fds != map[]
    ensures var k := First(fds.Keys); Held(fds) == [fds[k]] + Held(fds - {k})
  {
    var k := First(fds.Keys);
    NamesUnfold(fds);
    ValuesCons(fds, k, OwnerNames(fds - {k}));
  }

  /** Each indexed number is there as often as it has owners. */
  lemma {:induction false} HeldCounts(fds: map<string, int>, x: int)
    ensures multiset(Held(fds))[x] == |OwnersOf(fds, x)|
    decreases |fds|
  {
    if fds == map[] {
    } else {
      var k := First(fds.Keys);
      DropFirst(fds);
      HeldCounts(fds - {k}, x);
      OwnersAfterDrop(fds, k, x);
      HeldUnfold(fds);
    }
  }

  /** In a state that agrees, the first owner's descriptor is listed, and it is the owner that QMap::key finds. */
  lemma FirstOwner(s: Locks)
    requires Indexed(s) && s.fds != map[]
    ensures var k := First(s.fds.Keys); s.fds[k] in s.inhibitFds && IsFirst(OwnersOf(s.fds, s.fds[k]), k)
  {
    var k := First(s.fds.Keys);
    assert Loose(s, s.fds[k]) >= 0;
    assert k in OwnersOf(s.fds, s.fds[k]);
  }

  /** One turn, with the guard: the first owner leaves the index and its descriptor is released. */
  lemma DrainOneEffect(s: Locks)
    requires Indexed(s) && s.connected && s.fds != map[]
    ensures var k := First(s.fds.Keys); var t := DrainOne(s);
      && Indexed(t)
      && t == s.(released := s.released + [s.fds[k]], inhibitFds := t.inhibitFds, changes := t.changes,
                 fds := s.fds - {k})
      && multiset(t.inhibitFds) + multiset{s.fds[k]} == multiset(s.inhibitFds)
      && |t.fds| == |s.fds| - 1
  {
    var k := First(s.fds.Keys);
    FirstOwner(s);
    CloseEffect(s, s.fds[k]);
    CloseIndexed(s, s.fds[k]);
    DropFirst(s.fds);
  }

  lemma DrainUnfold(s: Locks)
    requires Indexed(s) && s.connected && s.fds != map[]
    ensures Drain(s) == Drain(DrainOne(s))
  {
    DrainOneEffect(s);
  }

  /** What the drain loop may change, and what it has done to the index and the descriptors. */
  ghost predicate Drained(s: Locks, d: Locks) {
    && d == s.(released := d.released, inhibitFds := d.inhibitFds, changes := d.changes, fds := map[])
    && multiset(d.inhibitFds) + multiset(Held(s.fds)) == multiset(s.inhibitFds)
    && d.released == s.released + Held(s.fds)
  }

  lemma DrainedStep(s: Locks, k: string, t: Locks, d: Locks)
    requires s.fds != map[] && k == First(s.fds.Keys) && Drained(t, d)
    requires t == s.(released := s.released + [s.fds[k]], inhibitFds := t.inhibitFds, changes := t.changes,
                     fds := s.fds - {k})
    requires multiset(t.inhibitFds) + multiset{s.fds[k]} == multiset(s.inhibitFds)
    ensures Drained(s, d)
  {
    HeldUnfold(s.fds);
    Associate(s.released, s.fds[k], Held(t.fds));
  }

  /** With the guard the loop exits; it releases the descriptor of each index entry once, in the order of the
      owner names, and touches no other. */
  lemma {:induction false} DrainExits(s: Locks)
    requires Indexed(s) && CanDrain(s)
    ensures Drained(s, Drain(s))
    decreases |s.fds|
  {
    if s.fds == map[] {
    } else {
      DrainOneEffect(s);
      DrainUnfold(s);
      DrainExits(DrainOne(s));
      DrainedStep(s, First(s.fds.Keys), DrainOne(s), Drain(s));
    }
  }

  lemma DrainEmpties(s: Locks)
    requires Indexed(s) && CanDrain(s)
    ensures DrainFor(s, |s.fds|).fds == map[]
    ensures |Drain(s).released| == |s.released| + |s.fds|
  {
    DrainExits(s);
  }

  /** In every state a run can reach, the drain loop exits if and only if there is nothing to drain, or
      the link is up and no lock is held under the empty name. */
  lemma DrainEndsIff(s: Locks)
    requires Inv(s)
    ensures DrainEnds(s) <==> CanDrain(s)
  {
    if !CanDrain(s) {
      forall n: nat ensures DrainFor(s, n).fds != map[] {
        DrainSpins(s, n);
      }
    } else if s.fds == map[] {
      assert DrainFor(s, 0).fds == map[];
    } else {
      DrainEmpties(s);
    }
  }

  lemma {:induction false} DrainForSplit(s: Locks, a: nat, b: nat)
    ensures DrainFor(s, a + b) == DrainFor(DrainFor(s, a), b)
    decreases a
  {
    if a == 0 || s.fds == map[] {
    } else {
      DrainForSplit(DrainOne(s), a - 1, b);
    }
  }

  lemma {:induction false} ReleasedAtMost(s: Locks, n: nat)
    ensures |DrainFor(s, n).released| <= |s.released| + n
    decreases n
  {
    if n == 0 || s.fds == map[] {
    } else {
      ReleasedAtMost(DrainOne(s), n - 1);
    }
  }

  lemma Stays(s: Locks, n: nat)
    requires s.fds == map[]
    ensures DrainFor(s, n) == s
  {
  }

  lemma StaysFrom(s: Locks, a: nat, n: nat)
    requires a <= n && DrainFor(s, a).fds == map[]
    ensures DrainFor(s, n) == DrainFor(s, a)
  {
    DrainForSplit(s, a, n - a);
    Stays(DrainFor(s, a), n - a);
  }

  lemma EnoughTurns(s: Locks, n: nat)
    requires Indexed(s) && CanDrain(s) && n >= |s.fds|
    ensures DrainFor(s, n) == Drain(s) && Drain(s).fds == map[]
  {
    DrainEmpties(s);
    StaysFrom(s, |s.fds|, n);
  }

  /** A loop that ended early would have released too little. */
  lemma TooFewTurns(s: Locks, n: nat)
    requires Indexed(s) && CanDrain(s) && n < |s.fds|
    ensures DrainFor(s, n).fds != map[]
  {
    DrainEmpties(s);
    ReleasedAtMost(s, n);
    if DrainFor(s, n).fds == map[] {
      StaysFrom(s, n, |s.fds|);
    }
  }

  /** The loop needs exactly as many turns as there are entries, and more turns change nothing. */
  lemma DrainForIff(s: Locks, n: nat)
    requires Inv(s)
    ensures DrainFor(s, n).fds == map[] <==> CanDrain(s) && n >= |s.fds|
    ensures DrainFor(s, n).fds == map[] ==> DrainFor(s, n) == Drain(s)
  {
    if !CanDrain(s) {
      DrainSpins(s, n);
    } else if s.fds == map[] {
      Stays(s, n);
      Stays(s, |s.fds|);
    } else if n < |s.fds| {
      TooFewTurns(s, n);
    } else {
      EnoughTurns(s, n);
    }
  }

  // ---------- Every step keeps the invariant ----------

  /** A grant leaves one more loose entry of the number that its owner name held before, and of no other. */
  lemma GrantLoose(s: Locks, r: Request, fd: int, t: Locks, x: int)
    requires Took(s, r, fd, t)
    ensures Loose(t, x) == Loose(s, x) + (if r.who in s.fds && s.fds[r.who] == x then 1 else 0)
  {
    OwnersAfterPut(s.fds, r.who, fd, x);
  }

  lemma GrantIndexed(s: Locks, r: Request, fd: int, t: Locks)
    requires Took(s, r, fd, t) && Indexed(s) && r.who != ""
    ensures Indexed(t)
  {
    forall x ensures Loose(t, x) >= 0 {
      assert Loose(s, x) >= 0;
      GrantLoose(s, r, fd, t, x);
    }
  }

  lemma GrantOnce(s: Locks, r: Request, fd: int, t: Locks)
    requires Took(s, r, fd, t) && OpenOnce(s) && FromDup(s, fd)
    ensures OpenOnce(t)
  {
    forall x | x != -1 ensures Count(t, x) <= 1 {
      assert Count(s, x) <= 1 && Count(t, x) == Count(s, x) + (if x == fd then 1 else 0);
    }
  }

  lemma GrantLedger(s: Locks, r: Request, fd: int, t: Locks)
    requires Took(s, r, fd, t) && Ledger(s)
    ensures Ledger(t)
  {
  }

  lemma GrantInv(s: Locks, r: Request, fd: int, t: Locks)
    requires Took(s, r, fd, t) && Inv(s) && FromDup(s, fd)
    ensures Inv(t)
  {
    GrantOnce(s, r, fd, t);
    GrantLedger(s, r, fd, t);
    if "" !in t.fds {
      GrantIndexed(s, r, fd, t);
    }
    assert CookiesCounted(t);
  }

  lemma GrantedInv(s: Locks, r: Request, fd: int)
    requires Inv(s) && FromDup(s, fd)
    ensures Inv(Granted(s, r, fd))
  {
    GrantTook(s, r, fd);
    GrantInv(s, r, fd, Granted(s, r, fd));
  }

  /** The parts of a state that the invariant reads on the descriptor side. */
  ghost predicate SameLocks(s: Locks, t: Locks) {
    && t.fds == s.fds && t.inhibitFds == s.inhibitFds
    && t.acquired == s.acquired && t.released == s.released && t.changes == s.changes
  }

  lemma SameLocksInv(s: Locks, t: Locks)
    requires Inv(s) && SameLocks(s, t) && CookiesCounted(t)
    ensures Inv(t)
  {
    if Indexed(s) {
      forall x ensures Loose(t, x) == Loose(s, x) {
      }
    }
    assert forall x :: Count(t, x) == Count(s, x);
  }

  lemma UnInhibitInv(s: Locks, cookie: nat)
    requires Inv(s)
    ensures Inv(UnInhibit(s, cookie))
  {
    var fd := FdOf(s, cookie);
    if fd != -1 {
      var t := Close(s, fd);
      CloseInv(s, fd);
      SameLocksInv(t, UnInhibit(s, cookie));
    }
  }

  lemma InhibitInv(s: Locks, who: string, why: string)
    requires Inv(s)
    ensures Inv(Inhibit(s, who, why))
  {
    var t := Inhibit(s, who, why);
    assert t.cookies == s.cookies + [s.seed];
    assert (|s.cookies| % COOKIE_LIMIT + 1) % COOKIE_LIMIT == (|s.cookies| + 1) % COOKIE_LIMIT;
    assert s.seed in t.cookies;
    assert forall c :: c in s.cookies ==> c in t.cookies;
    assert CookiesCounted(t);
    SameLocksInv(s, t);
  }

  lemma LockInv(s: Locks)
    requires Inv(s)
    ensures Inv(Lock(s))
  {
    DrainForInv(s, |s.fds|);
    SameLocksInv(Drain(s), Lock(s));
  }

  /** The steps that touch neither a cookie nor a descriptor. */
  predicate Quiet(step: Step) {
    step.StepRefused? || step.StepUnlock? || step.StepPrepareForSleep? || step.StepLink?
  }

  lemma UnlockFields(s: Locks)
    ensures Unlock(s) == s.(pending := Unlock(s).pending, active := false)
  {
  }

  lemma QuietFields(s: Locks, step: Step)
    requires Quiet(step)
    ensures var t := Apply(s, step);
      SameLocks(s, t) && t.inhibit == s.inhibit && t.inhibitFd == s.inhibitFd
      && t.seed == s.seed && t.cookies == s.cookies
  {
    if step.StepUnlock? {
      UnlockFields(s);
    }
  }

  lemma QuietInv(s: Locks, step: Step)
    requires Inv(s) && Quiet(step)
    ensures Inv(Apply(s, step))
  {
    QuietFields(s, step);
    SameLocksInv(s, Apply(s, step));
  }

  lemma StepInv(s: Locks, step: Step)
    requires Inv(s) && Enabled(s, step)
    ensures Inv(Apply(s, step))
  {
    match step
    case StepInhibit(who, why) => InhibitInv(s, who, why);
    case StepUnInhibit(cookie) => UnInhibitInv(s, cookie);
    case StepGranted(r, fd) => GrantedInv(s, r, fd);
    case StepLock => LockInv(s);
    case _ => QuietInv(s, step);
  }

  /** Every reachable state satisfies the invariant: no descriptor is listed twice; the index gives each owner
      a list entry of its own unless an application gave the empty name; each number was released exactly as
      often as it was acquired, save for the locks still held; and inhibitedChanged alternates from true and
      ends at isInhibited(). Any number of dups may fail on the way. */
  lemma {:induction false} RunInv(s: Locks, steps: seq<Step>)
    requires Inv(s) && Legal(s, steps)
    ensures Inv(Exec(s, steps))
    decreases |steps|
  {
    if steps == [] {
    } else {
      StepInv(s, steps[0]);
      RunInv(Apply(s, steps[0]), steps[1..]);
    }
  }

  lemma InitialInv()
    ensures Inv(INITIAL)
  {
  }

  lemma OnceIff(s: Locks)
    requires OpenOnce(s)
    ensures NoDup(s.inhibitFds) <==> Count(s, -1) <= 1
  {
    NoDupCounts(s.inhibitFds);
    if Count(s, -1) <= 1 {
      forall x ensures multiset(s.inhibitFds)[x] <= 1 {
        assert x != -1 ==> Count(s, x) <= 1;
      }
    }
  }

  /** The same for runs from startup, spelled out. The list of descriptors is free of repetitions if and only
      if at most one failed dup is still listed. */
  lemma EveryRun(steps: seq<Step>)
    requires Legal(INITIAL, steps)
    ensures var t := Exec(INITIAL, steps);
      && (forall i, j :: 0 <= i < j < |t.inhibitFds| && t.inhibitFds[i] == t.inhibitFds[j] ==> t.inhibitFds[i] == -1)
      && (NoDup(t.inhibitFds) <==> multiset(t.acquired)[-1] <= multiset(t.released)[-1] + 1)
      && ("" !in t.fds ==>
            && (forall a :: a in t.fds ==> t.fds[a] in t.inhibitFds)
            && (forall a, b :: a in t.fds && b in t.fds && t.fds[a] == t.fds[b] != -1 ==> a == b))
      && |t.acquired| == |t.released| + |t.inhibitFds|
      && (forall fd :: multiset(t.released)[fd] <= multiset(t.acquired)[fd])
      && (forall i :: 0 <= i < |t.changes| ==> t.changes[i] == (i % 2 == 0))
      && (IsInhibited(t) <==> t.changes != [] && t.changes[|t.changes| - 1])
      && t.inhibitFd.Keys <= t.inhibit.Keys
  {
    InitialInv();
    RunInv(INITIAL, steps);
    var t := Exec(INITIAL, steps);
    OnceIff(t);
    Repeated(t);
    LedgerMeans(t);
    if "" !in t.fds {
      forall a, b | a in t.fds && b in t.fds
        ensures t.fds[a] in t.inhibitFds && (t.fds[a] == t.fds[b] != -1 ==> a == b)
      {
        IndexedOwners(t, a, b);
      }
    }
  }

  lemma Repeated(s: Locks)
    requires OpenOnce(s)
    ensures forall i, j :: 0 <= i < j < |s.inhibitFds| && s.inhibitFds[i] == s.inhibitFds[j] ==> s.inhibitFds[i] == -1
  {
    var l := s.inhibitFds;
    forall i, j | 0 <= i < j < |l| && l[i] == l[j] ensures l[i] == -1 {
      assert l == l[..i + 1] + l[i + 1..];
      assert l[i] in l[..i + 1] && l[j] in l[i + 1..] by {
        assert l[..i + 1][i] == l[i] && l[i + 1..][j - i - 1] == l[j];
      }
      assert Count(s, l[i]) >= 2;
    }
  }

  lemma LedgerMeans(s: Locks)
    requires Ledger(s)
    ensures |s.acquired| == |s.released| + |s.inhibitFds|
    ensures forall fd :: multiset(s.released)[fd] <= multiset(s.acquired)[fd]
    ensures forall i :: 0 <= i < |s.changes| ==> s.changes[i] == (i % 2 == 0)
    ensures IsInhibited(s) <==> s.changes != [] && s.changes[|s.changes| - 1]
  {
    assert |multiset(s.acquired)| == |multiset(s.released)| + |multiset(s.inhibitFds)|;
    forall i: nat | i < |s.changes| ensures s.changes[i] == (i % 2 == 0) {
      EdgeLogAlternates(s.changes, IsInhibited(s), i);
    }
  }

  // ---------- What no environment can break ----------

  lemma {:induction false} DrainForLedger(s: Locks, n: nat)
    requires Ledger(s)
    ensures Ledger(DrainFor(s, n))
    decreases n
  {
    if n == 0 || s.fds == map[] {
    } else {
      CloseLedger(s, s.fds[First(s.fds.Keys)]);
      DrainForLedger(DrainOne(s), n - 1);
    }
  }

  lemma SameLedger(s: Locks, t: Locks)
    requires Ledger(s) && t.inhibitFds == s.inhibitFds
    requires t.acquired == s.acquired && t.released == s.released && t.changes == s.changes
    ensures Ledger(t)
  {
  }

  lemma UnInhibitLedger(s: Locks, cookie: nat)
    requires Ledger(s)
    ensures Ledger(UnInhibit(s, cookie))
  {
    var fd := FdOf(s, cookie);
    if fd != -1 {
      CloseLedger(s, fd);
      SameLedger(Close(s, fd), UnInhibit(s, cookie));
    }
  }

  lemma LockLedger(s: Locks)
    requires Ledger(s)
    ensures Ledger(Lock(s))
  {
    DrainForLedger(s, |s.fds|);
    SameLedger(Drain(s), Lock(s));
  }

  lemma QuietLedger(s: Locks, step: Step)
    requires Ledger(s) && Quiet(step)
    ensures Ledger(Apply(s, step))
  {
    QuietFields(s, step);
    SameLedger(s, Apply(s, step));
  }

  lemma LedgerStep(s: Locks, step: Step)
    requires Ledger(s)
    ensures Ledger(Apply(s, step))
  {
    match step
    case StepUnInhibit(cookie) => UnInhibitLedger(s, cookie);
    case StepGranted(r, fd) =>
      GrantTook(s, r, fd);
      GrantLedger(s, r, fd, Granted(s, r, fd));
    case StepLock => LockLedger(s);
    case StepInhibit(who, why) => SameLedger(s, Inhibit(s, who, why));
    case _ => QuietLedger(s, step);
  }

  /** Conservation and the alternation of inhibitedChanged need no assumption on the environment at all: they
      hold over every sequence of steps, whatever numbers the replies bring. */
  lemma {:induction false} LedgerRun(s: Locks, steps: seq<Step>)
    requires Ledger(s)
    ensures Ledger(Exec(s, steps))
    decreases |steps|
  {
    if steps == [] {
    } else {
      LedgerStep(s, steps[0]);
      LedgerRun(Apply(s, steps[0]), steps[1..]);
    }
  }

  /** A grant keeps the descriptors distinct if and only if dup returned a number that is not listed, so a
      second failed dup breaks it. */
  lemma DistinctIff(s: Locks, r: Request, fd: int)
    requires NoDup(s.inhibitFds)
    ensures NoDup(Granted(s, r, fd).inhibitFds) <==> fd !in s.inhibitFds
  {
    var held := Granted(s, r, fd).inhibitFds;
    assert held == s.inhibitFds + [fd];
    if fd in s.inhibitFds {
      var i :| 0 <= i < |s.inhibitFds| && s.inhibitFds[i] == fd;
      assert held[i] == held[|s.inhibitFds|];
    }
  }
}
