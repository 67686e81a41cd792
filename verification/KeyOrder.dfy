/** The iteration order of QMap, which fixes what cbegin() and key() return. */
module KeyOrder {

  /** QString's order: lexicographic by character. */
  predicate AtMost(a: string, b: string) {
    a == [] || (b != [] && (a[0] < b[0] || (a[0] == b[0] && AtMost(a[1..], b[1..]))))
  }

  lemma Reflexive(a: string)
    ensures AtMost(a, a)
  {
  }

  lemma Antisymmetric(a: string, b: string)
    requires AtMost(a, b) && AtMost(b, a)
    ensures a == b
  {
  }

  lemma Transitive(a: string, b: string, c: string)
    requires AtMost(a, b) && AtMost(b, c)
    ensures AtMost(a, c)
  {
  }

  lemma Total(a: string, b: string)
    ensures AtMost(a, b) || AtMost(b, a)
  {
  }

  /** Of two strings, a proper beginning comes first, and otherwise the first difference decides. */
  lemma {:induction false} Lexicographic(p: string, x: char, a: string, y: char, b: string)
    requires x < y
    ensures AtMost(p, p + [x] + a)
    ensures AtMost(p + [x] + a, p + [y] + b) && !AtMost(p + [y] + b, p + [x] + a)
  {
    var l, r := p + [x] + a, p + [y] + b;
    if p == [] {
    } else {
      assert l[1..] == p[1..] + [x] + a && r[1..] == p[1..] + [y] + b;
      Lexicographic(p[1..], x, a, y, b);
    }
  }

  ghost predicate IsFirst(keys: set<string>, k: string) {
    k in keys && forall x :: x in keys ==> AtMost(k, x)
  }

  lemma {:induction false} FirstExists(keys: set<string>)
    requires keys != {}
    ensures exists k :: IsFirst(keys, k)
  {
    var x :| x in keys;
    Reflexive(x);
    if keys == {x} {
      assert IsFirst(keys, x);
    } else {
      var rest := keys - {x};
      FirstExists(rest);
      var k :| IsFirst(rest, k);
      Total(k, x);
      if AtMost(k, x) {
        assert IsFirst(keys, k);
      } else {
        forall y | y in keys ensures AtMost(x, y) {
          if y != x {
            Transitive(x, k, y);
          }
        }
        assert IsFirst(keys, x);
      }
    }
  }

  /** The key of cbegin(). */
  ghost function First(keys: set<string>): (k: string)
    requires keys != {}
    ensures IsFirst(keys, k)
  {
    FirstExists(keys);
    var k :| IsFirst(keys, k);
    k
  }

  lemma FirstUnique(keys: set<string>, k: string)
    requires IsFirst(keys, k)
    ensures k == First(keys)
  {
    Antisymmetric(k, First(keys));
  }

  /** QMap::key(value): the first key that holds the value, or the empty string. */
  ghost function KeyOf(m: map<string, int>, v: int): (k: string)
    ensures (forall x :: x in m ==> m[x] != v) ==> k == ""
    ensures (exists x :: x in m && m[x] == v) ==> k in m && m[k] == v
  {
    var ks := set x | x in m && m[x] == v;
    assert forall x :: x in m && m[x] == v ==> x in ks;
    if ks == {} then "" else First(ks)
  }

  /** The least key of QMap<uint, ...> in a non-empty set of keys. */
  ghost predicate IsLeast(keys: set<nat>, k: nat) {
    k in keys && forall x :: x in keys ==> k <= x
  }

  lemma {:induction false} LeastExists(keys: set<nat>)
    requires keys != {}
    ensures exists k :: IsLeast(keys, k)
  {
    var x :| x in keys;
    if keys == {x} {
      assert IsLeast(keys, x);
    } else {
      LeastExists(keys - {x});
      var k :| IsLeast(keys - {x}, k);
      var l := if k <= x then k else x;
      assert forall y :: y in keys ==> y == x || y in keys - {x};
      assert IsLeast(keys, l);
    }
  }

  ghost function Least(keys: set<nat>): (k: nat)
    requires keys != {}
    ensures IsLeast(keys, k)
  {
    LeastExists(keys);
    var k :| IsLeast(keys, k);
    k
  }
}
