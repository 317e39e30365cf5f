/** The lexicographic order of keys, in which ordered maps and sets are iterated. */
module Keys {
  predicate AtMost(a: string, b: string) {
    a == [] || (b != [] && (a[0] < b[0] || (a[0] == b[0] && AtMost(a[1..], b[1..]))))
  }

  /** `a` comes strictly before `b`: it is a proper beginning of it, or at the first place where they
      differ it has the smaller character. */
  ghost predicate Precedes(a: string, b: string) {
    a < b || exists i: nat :: DiffersAt(a, b, i)
  }

  ghost predicate DiffersAt(a: string, b: string, i: nat) {
    i < |a| && i < |b| && a[..i] == b[..i] && a[i] < b[i]
  }

  lemma DiffersLonger(c: char, a: string, b: string, i: nat)
    ensures DiffersAt([c] + a, [c] + b, i + 1) <==> DiffersAt(a, b, i)
  {
    var x, y := [c] + a, [c] + b;
    if i < |a| && i < |b| {
      assert x[..i + 1] == [c] + a[..i] && y[..i + 1] == [c] + b[..i];
      assert a[..i] == x[..i + 1][1..] && b[..i] == y[..i + 1][1..];
    }
  }

  lemma PrefixLonger(c: char, a: string, b: string)
    ensures [c] + a < [c] + b <==> a < b
  {
    var x, y := [c] + a, [c] + b;
    assert x[1..] == a && y[1..] == b;
    if a < b { assert x == y[..|x|]; }
    if x < y { assert a == y[..|x|][1..] == b[..|a|]; }
  }

  lemma PrecedesLonger(c: char, a: string, b: string)
    ensures Precedes([c] + a, [c] + b) <==> Precedes(a, b)
  {
    PrefixLonger(c, a, b);
    if i: nat :| DiffersAt(a, b, i) {
      DiffersLonger(c, a, b, i);
    }
    if i: nat :| DiffersAt([c] + a, [c] + b, i) {
      if i == 0 {
        assert false;
      } else {
        DiffersLonger(c, a, b, i - 1);
      }
    }
  }

  /** The order without its recursion. */
  lemma {:induction false} AtMostIffPrecedes(a: string, b: string)
    ensures AtMost(a, b) <==> a == b || Precedes(a, b)
  {
    if a != [] && b != [] {
      AtMostIffPrecedes(a[1..], b[1..]);
      if a[0] == b[0] {
        PrecedesLonger(a[0], a[1..], b[1..]);
        assert a == [a[0]] + a[1..] && b == [b[0]] + b[1..];
      } else {
        FirstDiffers(a, b);
      }
    }
  }

  lemma FirstDiffers(a: string, b: string)
    requires a != [] && b != [] && a[0] != b[0]
    ensures Precedes(a, b) <==> a[0] < b[0]
  {
    assert a[..0] == b[..0];
    assert DiffersAt(a, b, 0) <==> a[0] < b[0];
    forall i: nat | i > 0 ensures !DiffersAt(a, b, i) {
      if i < |a| && i < |b| { assert a[..i][0] != b[..i][0]; }
    }
  }

  lemma {:induction false} Antisymmetric(a: string, b: string)
    requires AtMost(a, b) && AtMost(b, a)
    ensures a == b
  {
    if a != [] && b != [] {
      Antisymmetric(a[1..], b[1..]);
      assert a == [a[0]] + a[1..] && b == [b[0]] + b[1..];
    }
  }

  lemma {:induction false} Transitive(a: string, b: string, c: string)
    requires AtMost(a, b) && AtMost(b, c)
    ensures AtMost(a, c)
  {
    if a != [] && a[0] == b[0] == c[0] {
      Transitive(a[1..], b[1..], c[1..]);
    }
  }

  lemma {:induction false} Linear(a: string, b: string)
    ensures AtMost(a, b) || AtMost(b, a)
  {
    if a != [] && b != [] && a[0] == b[0] {
      Linear(a[1..], b[1..]);
    }
  }

  lemma {:induction false} LeastExists(keys: set<string>)
    requires keys != {}
    ensures exists k :: k in keys && forall l | l in keys :: AtMost(k, l)
  {
    var k :| k in keys;
    var rest := keys - {k};
    Linear(k, k);
    if rest == {} {
      assert keys == {k};
    } else {
      LeastExists(rest);
      var m :| m in rest && forall l | l in rest :: AtMost(m, l);
      Linear(k, m);
      var least := if AtMost(k, m) then k else m;
      forall l | l in keys ensures AtMost(least, l) {
        if l != k && least == k { Transitive(k, m, l); }
      }
    }
  }

  ghost predicate Ascends(keys: seq<string>) {
    forall i, j | 0 <= i < j < |keys| :: Precedes(keys[i], keys[j])
  }

  lemma AscendsFrom(least: string, rest: seq<string>)
    requires Ascends(rest) && forall k | k in rest :: AtMost(least, k) && k != least
    ensures Ascends([least] + rest)
  {
    forall i | 0 <= i < |rest| ensures Precedes(least, rest[i]) {
      AtMostIffPrecedes(least, rest[i]);
    }
  }

  lemma AscendsOn(keys: seq<string>, next: string)
    requires Ascends(keys) && forall k | k in keys :: Precedes(k, next)
    ensures Ascends(keys + [next])
  {
    assert forall i | 0 <= i < |keys| :: keys[i] in keys;
  }

  lemma EarlierPrecede(keys: seq<string>, i: nat)
    requires Ascends(keys) && i < |keys|
    ensures forall k | k in keys[..i] :: Precedes(k, keys[i])
  {
  }

  /** The members of a set of keys in ascending order, each once. */
  function Sorted(keys: set<string>): (r: seq<string>)
    ensures Ascends(r) && forall k :: k in r <==> k in keys
    decreases |keys|
  {
    if keys == {} then [] else
    LeastExists(keys);
    assert forall a, b | AtMost(a, b) && AtMost(b, a) :: a == b by {
      forall a, b | AtMost(a, b) && AtMost(b, a) ensures a == b { Antisymmetric(a, b); }
    }
    var least :| least in keys && forall l | l in keys :: AtMost(least, l);
    AscendsFrom(least, Sorted(keys - {least}));
    [least] + Sorted(keys - {least})
  }
}
