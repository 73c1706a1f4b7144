/** Iteration orders: bitmaps yield document ids in ascending order and collections from the
    highest bit down, and the key-value store yields its keys in ascending order. */
module KeyOrder {

  // ----- Numbers

  lemma {:induction false} LeastExists(s: set<nat>) returns (m: nat)
    requires s != {}
    ensures m in s && forall x :: x in s ==> m <= x
    decreases |s|
  {
    var y :| y in s;
    var rest := s - {y};
    assert forall x :: x in s ==> x == y || x in rest;
    m := y;
    if rest != {} {
      var n := LeastExists(rest);
      if n < y { m := n; }
    }
  }

  lemma HasLeast(s: set<nat>)
    requires s != {}
    ensures exists m :: m in s && forall x :: x in s ==> m <= x
  {
    var m := LeastExists(s);
  }

  function Least(s: set<nat>): (m: nat)
    requires s != {}
    ensures m in s && forall x :: x in s ==> m <= x
  {
    HasLeast(s);
    var m :| m in s && forall x :: x in s ==> m <= x;
    m
  }

  ghost predicate Increasing(r: seq<nat>) {
    forall i, j :: 0 <= i < j < |r| ==> r[i] < r[j]
  }

  lemma IncreasingCons(m: nat, rest: seq<nat>)
    requires Increasing(rest) && forall x :: x in rest ==> m < x
    ensures Increasing([m] + rest)
    ensures forall x :: x in [m] + rest <==> x == m || x in rest
  {
    forall i, j | 0 <= i < j < |[m] + rest| ensures ([m] + rest)[i] < ([m] + rest)[j] {
      assert rest[j - 1] in rest;
    }
  }

  function Ascending(s: set<nat>): (r: seq<nat>)
    ensures forall x :: x in r <==> x in s
    ensures Increasing(r)
    ensures |r| == |s|
  {
    if s == {} then []
    else
      var m := Least(s);
      var rest := Ascending(s - {m});
      IncreasingCons(m, rest);
      [m] + rest
  }

  lemma {:induction false} HighestExists(s: set<nat>) returns (m: nat)
    requires s != {}
    ensures m in s && forall x :: x in s ==> x <= m
    decreases |s|
  {
    var y :| y in s;
    var rest := s - {y};
    assert forall x :: x in s ==> x == y || x in rest;
    m := y;
    if rest != {} {
      var n := HighestExists(rest);
      if n > y { m := n; }
    }
  }

  lemma HasHighest(s: set<nat>)
    requires s != {}
    ensures exists m :: m in s && forall x :: x in s ==> x <= m
  {
    var m := HighestExists(s);
  }

  function Highest(s: set<nat>): (m: nat)
    requires s != {}
    ensures m in s && forall x :: x in s ==> x <= m
  {
    HasHighest(s);
    var m :| m in s && forall x :: x in s ==> x <= m;
    m
  }

  // ----- Keys of up to three big-endian fields

  datatype Key = Key(a: nat, b: nat, c: nat)

  predicate Before(x: Key, y: Key) {
    x.a < y.a || (x.a == y.a && (x.b < y.b || (x.b == y.b && x.c < y.c)))
  }

  ghost predicate IsFirst(m: Key, s: set<Key>) {
    m in s && forall x :: x in s && x != m ==> Before(m, x)
  }

  lemma FirstWith(s: set<Key>, y: Key, m: Key) returns (first: Key)
    requires y in s && IsFirst(m, s - {y})
    ensures IsFirst(first, s)
  {
    first := if Before(y, m) then y else m;
    forall x | x in s && x != first ensures Before(first, x) {
      assert x == y || x in s - {y};
    }
  }

  lemma {:induction false} FirstExists(s: set<Key>) returns (m: Key)
    requires s != {}
    ensures IsFirst(m, s)
    decreases |s|
  {
    m :| m in s;
    if s != {m} {
      assert s - {m} != {};
      var rest := FirstExists(s - {m});
      m := FirstWith(s, m, rest);
    }
  }

  lemma HasFirst(s: set<Key>)
    requires s != {}
    ensures exists m :: m in s && forall x :: x in s && x != m ==> Before(m, x)
  {
    var m := FirstExists(s);
  }

  function First(s: set<Key>): (m: Key)
    requires s != {}
    ensures m in s && forall x :: x in s && x != m ==> Before(m, x)
  {
    HasFirst(s);
    var m :| m in s && forall x :: x in s && x != m ==> Before(m, x);
    m
  }

  ghost predicate Sorted(r: seq<Key>) {
    forall i, j :: 0 <= i < j < |r| ==> Before(r[i], r[j])
  }

  /** The keys of a store in the order an iterator yields them. */
  function Scan(s: set<Key>): (r: seq<Key>)
    ensures forall x :: x in r <==> x in s
    ensures Sorted(r)
    ensures |r| == |s|
  {
    if s == {} then [] else [First(s)] + Scan(s - {First(s)})
  }

  /** `ks` lists the keys of a store as an iterator does. */
  ghost predicate IsScan(ks: seq<Key>, keys: set<Key>) {
    Sorted(ks) && forall k :: k in ks <==> k in keys
  }

  method Iterate(keys: set<Key>) returns (ks: seq<Key>)
    ensures IsScan(ks, keys)
  {
    ks := Scan(keys);
  }

  lemma {:induction false} SortedUnique(r: seq<Key>, q: seq<Key>)
    requires Sorted(r) && Sorted(q) && forall x :: x in r <==> x in q
    ensures r == q
    decreases |r|
  {
    assert q != [] ==> q[0] in q;
    if r != [] {
      assert r[0] in q && q != [] && q[0] in r;
      assert r[0] == q[0] by {
        var i :| 0 <= i < |q| && q[i] == r[0];
        var j :| 0 <= j < |r| && r[j] == q[0];
      }
      forall x ensures x in r[1..] <==> x in q[1..] {
        assert x in r <==> x == r[0] || x in r[1..];
        assert x in q <==> x == q[0] || x in q[1..];
      }
      SortedUnique(r[1..], q[1..]);
    }
  }

  lemma SortedConcat(p: seq<Key>, q: seq<Key>)
    requires Sorted(p) && Sorted(q) && forall x, y :: x in p && y in q ==> Before(x, y)
    ensures Sorted(p + q)
    ensures forall x :: x in p + q <==> x in p || x in q
  {
    forall i, j | 0 <= i < j < |p + q| ensures Before((p + q)[i], (p + q)[j]) {
      if i < |p| <= j {
        assert p[i] in p && q[j - |p|] in q;
      }
    }
  }

  /** Two stretches of keys, one before the other, are scanned one after the other. */
  lemma ScanConcat(a: set<Key>, b: set<Key>)
    requires forall x, y :: x in a && y in b ==> Before(x, y)
    ensures Scan(a + b) == Scan(a) + Scan(b)
  {
    SortedConcat(Scan(a), Scan(b));
    SortedUnique(Scan(a + b), Scan(a) + Scan(b));
  }

  lemma ScanSnoc(a: set<Key>, y: Key)
    requires forall x :: x in a ==> Before(x, y)
    ensures Scan(a + {y}) == Scan(a) + [y]
  {
    ScanConcat(a, {y});
    assert Scan({y}) == [y] by {
      SortedUnique(Scan({y}), [y]);
    }
  }
}
