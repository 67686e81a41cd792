/** Facts about sequences that every component of the model shares: absence of duplicates, reversal,
    QList::removeOne, and logs of edge-triggered signals. */
module Traces {

  ghost predicate NoDup<T>(s: seq<T>) {
    forall i, j :: 0 <= i < j < |s| ==> s[i] != s[j]
  }

  lemma Associate<T>(a: seq<T>, x: T, b: seq<T>)
    ensures (a + [x]) + b == a + ([x] + b)
  {
  }

  lemma TakeOneMore<T>(s: seq<T>, n: nat)
    requires 0 < n <= |s|
    ensures s[..n] == s[..n - 1] + [s[n - 1]]
  {
  }

  /** What std::reverse leaves in a list. */
  function Reverse<T>(s: seq<T>): (r: seq<T>)
    ensures |r| == |s|
    ensures forall i :: 0 <= i < |s| ==> r[i] == s[|s| - 1 - i]
  {
    if s == [] then [] else Reverse(s[1..]) + [s[0]]
  }

  lemma ReverseMembers<T>(s: seq<T>, x: T)
    ensures x in Reverse(s) <==> x in s
  {
  }

  lemma ReverseNoDup<T>(s: seq<T>)
    requires NoDup(s)
    ensures NoDup(Reverse(s))
  {
  }

  lemma {:induction false} NoDupCounts<T>(s: seq<T>)
    ensures NoDup(s) <==> forall x :: multiset(s)[x] <= 1
  {
    if s == [] {
    } else {
      var rest := s[1..];
      assert s == [s[0]] + rest;
      NoDupCounts(rest);
      assert multiset(s) == multiset{s[0]} + multiset(rest);
      assert NoDup(s) <==> NoDup(rest) && s[0] !in rest by {
        assert forall i :: 0 <= i < |rest| ==> rest[i] == s[i + 1];
      }
      assert s[0] in rest ==> multiset(s)[s[0]] > 1;
      forall x ensures multiset(rest)[x] <= multiset(s)[x] <= multiset(rest)[x] + if x == s[0] then 1 else 0 {
      }
    }
  }

  /** The elements of a are elements of b in the same order. */
  ghost predicate Subsequence<T>(a: seq<T>, b: seq<T>)
    decreases |b|
  {
    a == [] || (b != [] && (if a[0] == b[0] then Subsequence(a[1..], b[1..]) else Subsequence(a, b[1..])))
  }

  lemma {:induction false} SubsequenceLater<T>(a: seq<T>, x: T, b: seq<T>)
    requires Subsequence(a, b)
    ensures Subsequence(a, [x] + b)
    decreases |b|, 1
  {
    assert ([x] + b)[1..] == b;
    if a != [] && a[0] == x {
      SubsequenceTail(a, b);
    }
  }

  lemma {:induction false} SubsequenceTail<T>(a: seq<T>, b: seq<T>)
    requires Subsequence(a, b) && a != []
    ensures Subsequence(a[1..], b)
    decreases |b|, 0
  {
    if a[0] == b[0] {
      SubsequenceLater(a[1..], b[0], b[1..]);
      assert b == [b[0]] + b[1..];
    } else {
      SubsequenceTail(a, b[1..]);
      SubsequenceLater(a[1..], b[0], b[1..]);
      assert b == [b[0]] + b[1..];
    }
  }

  /** Appending to both keeps the order, and so does appending to the longer one alone. */
  lemma {:induction false} SubsequenceAppend<T>(a: seq<T>, b: seq<T>, x: T)
    requires Subsequence(a, b)
    ensures Subsequence(a + [x], b + [x]) && Subsequence(a, b + [x])
    decreases |b|
  {
    if b == [] {
      assert a + [x] == [x] && b + [x] == [x];
    } else {
      assert (b + [x])[1..] == b[1..] + [x];
      if a != [] && a[0] == b[0] {
        assert (a + [x])[1..] == a[1..] + [x];
        SubsequenceAppend(a[1..], b[1..], x);
      } else {
        SubsequenceAppend(a, b[1..], x);
        if a == [] && x == b[0] {
          assert (a + [x])[1..] == [];
        }
      }
    }
  }

  /** QList::removeOne: drops the first occurrence, if there is one. */
  function RemoveOne<T(==)>(s: seq<T>, x: T): (r: seq<T>)
    ensures x !in s ==> r == s
    ensures x in s ==> |r| == |s| - 1
  {
    if s == [] then []
    else if s[0] == x then s[1..]
    else [s[0]] + RemoveOne(s[1..], x)
  }

  /** What comes before the first occurrence and after it stays, in order. */
  lemma {:induction false} RemoveOneSplits<T>(a: seq<T>, x: T, b: seq<T>)
    requires x !in a
    ensures RemoveOne(a + [x] + b, x) == a + b
  {
    var s := a + [x] + b;
    if a == [] {
      assert s[1..] == b;
    } else {
      assert s[1..] == a[1..] + [x] + b;
      RemoveOneSplits(a[1..], x, b);
    }
  }

  lemma {:induction false} RemoveOneBag<T>(s: seq<T>, x: T)
    ensures multiset(RemoveOne(s, x)) == multiset(s) - multiset{x}
  {
    if s == [] {
    } else {
      assert s == [s[0]] + s[1..];
      if s[0] != x {
        RemoveOneBag(s[1..], x);
      }
    }
  }

  lemma RemoveOneMembers<T>(s: seq<T>, x: T, y: T)
    requires NoDup(s)
    ensures y in RemoveOne(s, x) <==> y in s && y != x
  {
  }

  lemma {:induction false} RemoveOneNoDup<T>(s: seq<T>, x: T)
    requires NoDup(s)
    ensures NoDup(RemoveOne(s, x))
  {
    if s == [] || s[0] == x {
    } else {
      var t := RemoveOne(s[1..], x);
      RemoveOneNoDup(s[1..], x);
      RemoveOneMembers(s[1..], x, s[0]);
      assert s[0] !in t;
      assert RemoveOne(s, x) == [s[0]] + t;
    }
  }

  /** A log of values emitted only on a change: it starts away from the initial value, never repeats
      a value at once, and ends at the current one. */
  ghost predicate EdgeLog<T>(initial: T, log: seq<T>, current: T) {
    && (log == [] ==> current == initial)
    && (log != [] ==> log[0] != initial && log[|log| - 1] == current)
    && forall i :: 0 <= i < |log| - 1 ==> log[i] != log[i + 1]
  }

  lemma EdgeLogGrows<T>(initial: T, log: seq<T>, current: T, next: T)
    requires EdgeLog(initial, log, current) && next != current
    ensures EdgeLog(initial, log + [next], next)
  {
  }

  /** An edge log over booleans that starts from false strictly alternates true, false, true, ... */
  lemma {:induction false} EdgeLogAlternates(log: seq<bool>, current: bool, i: nat)
    requires EdgeLog(false, log, current) && i < |log|
    ensures log[i] == (i % 2 == 0)
  {
    if i == 0 {
    } else {
      EdgeLogAlternates(log, current, i - 1);
    }
  }
}
