/**
  Python's `sorted` on sets and on lists with a key.

  Sort keys are tuples of integers and strings, compared as Python compares tuples.
  `SortSet` is `sorted(s)` for a set whose elements have distinct keys; `SortBy` is the
  stable `sorted(xs, key=...)`. The uniqueness lemmas are what makes an output
  independent of the order in which a store or a provider lists its records.
*/
module Orders {
  datatype Atom = Num(n: int) | Text(s: string)

  type Key = seq<Atom>

  predicate TextLess(a: string, b: string) {
    b != [] && (a == [] || a[0] < b[0] || (a[0] == b[0] && TextLess(a[1..], b[1..])))
  }

  predicate AtomLess(a: Atom, b: Atom) {
    match (a, b)
    case (Num(m), Num(n)) => m < n
    case (Text(s), Text(t)) => TextLess(s, t)
    case (Num(_), Text(_)) => true
    case (Text(_), Num(_)) => false
  }

  predicate KeyLess(a: Key, b: Key) {
    b != [] && (a == [] || AtomLess(a[0], b[0]) || (a[0] == b[0] && KeyLess(a[1..], b[1..])))
  }

  /** The key of a path or of any other single string. */
  function TextKey(s: string): Key { [Text(s)] }

  // ----- the key order is a strict total order -----

  lemma {:induction false} TextTransitive(a: string, b: string, c: string)
    requires TextLess(a, b) && TextLess(b, c)
    ensures TextLess(a, c)
  {
    if a != [] && a[0] == b[0] == c[0] { TextTransitive(a[1..], b[1..], c[1..]); }
  }

  lemma {:induction false} TextConnected(a: string, b: string)
    ensures !TextLess(a, a)
    ensures a == b || TextLess(a, b) || TextLess(b, a)
  {
    if a != [] {
      TextConnected(a[1..], a[1..]);
      if b != [] && a[0] == b[0] {
        TextConnected(a[1..], b[1..]);
        assert a == [a[0]] + a[1..] && b == [b[0]] + b[1..];
      }
    }
  }

  lemma {:induction false} KeyTransitive(a: Key, b: Key, c: Key)
    requires KeyLess(a, b) && KeyLess(b, c)
    ensures KeyLess(a, c)
  {
    if a != [] {
      if a[0] == b[0] == c[0] && !AtomLess(a[0], c[0]) && !AtomLess(a[0], a[0]) {
        KeyTransitive(a[1..], b[1..], c[1..]);
      } else if a[0].Text? && b[0].Text? && c[0].Text? {
        if AtomLess(a[0], b[0]) && AtomLess(b[0], c[0]) { TextTransitive(a[0].s, b[0].s, c[0].s); }
      }
    }
  }

  lemma {:induction false} KeyConnected(a: Key, b: Key)
    ensures !KeyLess(a, a)
    ensures a == b || KeyLess(a, b) || KeyLess(b, a)
  {
    if a != [] {
      KeyConnected(a[1..], a[1..]);
      if a[0].Text? { TextConnected(a[0].s, a[0].s); }
      if b != [] {
        if a[0].Text? && b[0].Text? { TextConnected(a[0].s, b[0].s); }
        if a[0] == b[0] {
          KeyConnected(a[1..], b[1..]);
          assert a == [a[0]] + a[1..] && b == [b[0]] + b[1..];
        }
      }
    }
  }

  lemma KeyAsymmetric(a: Key, b: Key)
    requires KeyLess(a, b)
    ensures !KeyLess(b, a) && a != b
  {
    KeyConnected(a, a);
    if KeyLess(b, a) { KeyTransitive(a, b, a); }
  }

  // ----- sorted(set) -----

  predicate Increasing<T>(key: T -> Key, s: seq<T>) {
    forall i, j | 0 <= i < j < |s| :: KeyLess(key(s[i]), key(s[j]))
  }

  /** Distinct elements of s have distinct keys. */
  ghost predicate Distinguishes<T(!new)>(key: T -> Key, s: set<T>) {
    forall x, y | x in s && y in s && key(x) == key(y) :: x == y
  }

  predicate IsLeast<T(==)>(key: T -> Key, s: set<T>, m: T) {
    m in s && forall x | x in s :: x == m || KeyLess(key(m), key(x))
  }

  lemma {:induction false} LeastExists<T(!new)>(key: T -> Key, s: set<T>)
    requires s != {} && Distinguishes(key, s)
    ensures exists m :: IsLeast(key, s, m)
    decreases |s|
  {
    var y :| y in s;
    var rest := s - {y};
    if rest == {} {
      assert s == {y};
      assert IsLeast(key, s, y);
    } else {
      LeastExists(key, rest);
      var m :| IsLeast(key, rest, m);
      KeyConnected(key(y), key(m));
      var least := if KeyLess(key(y), key(m)) then y else m;
      forall x | x in s ensures x == least || KeyLess(key(least), key(x)) {
        if x != y && x != m && least == y { KeyTransitive(key(y), key(m), key(x)); }
      }
      assert IsLeast(key, s, least);
    }
  }

  lemma LeastUnique<T>(key: T -> Key, s: set<T>, m: T, n: T)
    requires IsLeast(key, s, m) && IsLeast(key, s, n)
    ensures m == n
  {
    if m != n { KeyAsymmetric(key(m), key(n)); }
  }

  function Least<T(==, !new)>(key: T -> Key, s: set<T>): (m: T)
    requires s != {} && Distinguishes(key, s)
    ensures IsLeast(key, s, m)
  {
    LeastExists(key, s);
    assert forall a, b | IsLeast(key, s, a) && IsLeast(key, s, b) :: a == b by {
      forall a, b | IsLeast(key, s, a) && IsLeast(key, s, b) ensures a == b { LeastUnique(key, s, a, b); }
    }
    var m :| m in s && IsLeast(key, s, m);
    m
  }

  function SortSet<T(==, !new)>(key: T -> Key, s: set<T>): (r: seq<T>)
    requires Distinguishes(key, s)
    ensures Increasing(key, r)
    ensures forall x :: x in r <==> x in s
    decreases |s|
  {
    if s == {} then []
    else
      var m := Least(key, s);
      var rest := SortSet(key, s - {m});
      assert forall i | 0 <= i < |rest| :: rest[i] in s - {m};
      [m] + rest
  }

  /** An increasing listing of a set is unique, so SortSet has only one possible result. */
  lemma {:induction false} IncreasingUnique<T(!new)>(key: T -> Key, a: seq<T>, b: seq<T>)
    requires Increasing(key, a) && Increasing(key, b)
    requires forall x :: x in a <==> x in b
    ensures a == b
    decreases |a|
  {
    assert a == [] || a[0] in b;
    assert b == [] || b[0] in a;
    if a != [] && b != [] {
      IncreasingHead(key, a, b);
      IncreasingHead(key, b, a);
      if a[0] != b[0] { KeyAsymmetric(key(a[0]), key(b[0])); }
      forall x ensures x in a[1..] <==> x in b[1..] {
        KeyConnected(key(a[0]), key(a[0]));
        assert x in a <==> x == a[0] || x in a[1..];
        assert x in b <==> x == b[0] || x in b[1..];
      }
      IncreasingUnique(key, a[1..], b[1..]);
      assert a == [a[0]] + a[1..] && b == [b[0]] + b[1..];
    }
  }

  lemma IncreasingHead<T>(key: T -> Key, a: seq<T>, b: seq<T>)
    requires a != [] && b != [] && Increasing(key, a) && a[0] in b && b[0] in a
    ensures a[0] == b[0] || KeyLess(key(a[0]), key(b[0]))
  {}

  lemma IncreasingIsSortSet<T(!new)>(key: T -> Key, a: seq<T>, s: set<T>)
    requires Increasing(key, a) && Distinguishes(key, s)
    requires forall x :: x in a <==> x in s
    ensures a == SortSet(key, s)
  {
    IncreasingUnique(key, a, SortSet(key, s));
  }

  lemma IncreasingDistinct<T>(key: T -> Key, s: seq<T>, i: nat, j: nat)
    requires Increasing(key, s) && i < |s| && j < |s| && key(s[i]) == key(s[j])
    ensures i == j
  {
    KeyConnected(key(s[i]), key(s[i]));
  }

  // ----- sorted(list, key=...) -----

  predicate SortedBy<T>(key: T -> Key, s: seq<T>) {
    forall i, j | 0 <= i < j < |s| :: !KeyLess(key(s[j]), key(s[i]))
  }

  /** The number of leading elements whose key is below k. */
  function Below<T>(key: T -> Key, k: Key, s: seq<T>): (p: nat)
    ensures p <= |s|
    ensures forall i | 0 <= i < p :: KeyLess(key(s[i]), k)
    ensures p < |s| ==> !KeyLess(key(s[p]), k)
  {
    if s == [] || !KeyLess(key(s[0]), k) then 0
    else
      var p := Below(key, k, s[1..]);
      assert forall i | 0 < i < 1 + p :: s[i] == s[1..][i - 1];
      1 + p
  }

  function InsertBy<T>(key: T -> Key, x: T, s: seq<T>): (r: seq<T>) {
    var p := Below(key, key(x), s);
    s[..p] + [x] + s[p..]
  }

  /** In a sorted list nothing from position Below on has a key below k. */
  lemma NotBelow<T>(key: T -> Key, k: Key, s: seq<T>, j: nat)
    requires SortedBy(key, s) && Below(key, k, s) <= j < |s|
    ensures !KeyLess(key(s[j]), k)
  {
    var p := Below(key, k, s);
    if KeyLess(key(s[j]), k) {
      KeyConnected(key(s[p]), key(s[j]));
      if KeyLess(key(s[p]), key(s[j])) { KeyTransitive(key(s[p]), key(s[j]), k); }
    }
  }

  lemma InsertByAt<T>(key: T -> Key, x: T, s: seq<T>, i: nat)
    requires i <= |s|
    ensures |InsertBy(key, x, s)| == |s| + 1
    ensures var p := Below(key, key(x), s);
            InsertBy(key, x, s)[i] == if i < p then s[i] else if i == p then x else s[i - 1]
  {}

  lemma InsertByMultiset<T>(key: T -> Key, x: T, s: seq<T>)
    ensures multiset(InsertBy(key, x, s)) == multiset([x]) + multiset(s)
  {
    var p := Below(key, key(x), s);
    assert s == s[..p] + s[p..];
    MiddleMultiset(s[..p], [x], s[p..]);
  }

  lemma InsertBySorted<T>(key: T -> Key, x: T, s: seq<T>)
    requires SortedBy(key, s)
    ensures SortedBy(key, InsertBy(key, x, s))
  {
    var p, r := Below(key, key(x), s), InsertBy(key, x, s);
    forall i, j | 0 <= i < j < |r| ensures !KeyLess(key(r[j]), key(r[i])) {
      InsertByAt(key, x, s, i);
      InsertByAt(key, x, s, j);
      if i == p {
        NotBelow(key, key(x), s, j - 1);
      } else if j == p {
        KeyAsymmetric(key(r[i]), key(x));
      }
    }
  }

  lemma MiddleMultiset<T>(a: seq<T>, b: seq<T>, c: seq<T>)
    ensures multiset(a + b + c) == multiset(b) + multiset(a + c)
  {}

  function SortBy<T(!new)>(key: T -> Key, s: seq<T>): (r: seq<T>)
    ensures SortedBy(key, r)
    ensures multiset(r) == multiset(s)
    ensures |r| == |s|
    ensures forall x :: x in r <==> x in s
  {
    if s == [] then []
    else
      assert s == [s[0]] + s[1..];
      InsertBySorted(key, s[0], SortBy(key, s[1..]));
      InsertByMultiset(key, s[0], SortBy(key, s[1..]));
      var r := InsertBy(key, s[0], SortBy(key, s[1..]));
      MultisetMembers(r, s);
      r
  }

  lemma MultisetMembers<T(!new)>(a: seq<T>, b: seq<T>)
    requires multiset(a) == multiset(b)
    ensures |a| == |b|
    ensures forall x :: x in a <==> x in b
  {
    assert |a| == |multiset(a)| && |b| == |multiset(b)|;
    forall x ensures x in a <==> x in b {
      assert x in a <==> x in multiset(a);
      assert x in b <==> x in multiset(b);
    }
  }

  /** Sorting what is already strictly ordered changes nothing. */
  lemma {:induction false} SortByIncreasing<T(!new)>(key: T -> Key, s: seq<T>)
    requires Increasing(key, s)
    ensures SortBy(key, s) == s
  {
    if s != [] {
      var rest := s[1..];
      SortByIncreasing(key, rest);
      if rest != [] { KeyAsymmetric(key(s[0]), key(s[1])); }
      assert Below(key, key(s[0]), rest) == 0;
      assert rest[..0] + [s[0]] + rest[0..] == s;
    }
  }

  // ----- sorting forgets the listing order -----

  function Map<T, U>(f: T -> U, s: seq<T>): (r: seq<U>)
    ensures |r| == |s|
    ensures forall i | 0 <= i < |s| :: r[i] == f(s[i])
  {
    if s == [] then [] else [f(s[0])] + Map(f, s[1..])
  }

  lemma {:induction false} MapAppend<T, U>(f: T -> U, a: seq<T>, b: seq<T>)
    ensures Map(f, a + b) == Map(f, a) + Map(f, b)
  {}

  lemma MapMembers<T, U>(f: T -> U, s: seq<T>, u: U)
    ensures u in Map(f, s) <==> exists i | 0 <= i < |s| :: f(s[i]) == u
  {
    if i :| 0 <= i < |s| && f(s[i]) == u { assert Map(f, s)[i] == u; }
    if u in Map(f, s) { var i :| 0 <= i < |s| && Map(f, s)[i] == u; assert f(s[i]) == u; }
  }

  lemma MapSnoc<T, U>(f: T -> U, s: seq<T>, x: T)
    ensures Map(f, s + [x]) == Map(f, s) + [f(x)]
  {
    MapAppend(f, s, [x]);
    assert Map(f, [x]) == [f(x)];
  }

  lemma MapSlice<T, U>(f: T -> U, s: seq<T>, i: nat, j: nat)
    requires i <= j <= |s|
    ensures Map(f, s)[i..j] == Map(f, s[i..j])
  {}

  lemma MapTakeDrop<T, U>(f: T -> U, s: seq<T>, i: nat)
    requires i <= |s|
    ensures Map(f, s)[..i] == Map(f, s[..i]) && Map(f, s)[i..] == Map(f, s[i..])
  {}

  lemma MapSliceSnoc<T, U>(f: T -> U, s: seq<T>, i: nat, j: nat)
    requires i <= j < |s|
    ensures Map(f, s[i..j + 1]) == Map(f, s[i..j]) + [f(s[j])]
  {}

  function Without<T>(s: seq<T>, i: nat): (r: seq<T>)
    requires i < |s|
  {
    s[..i] + s[i + 1..]
  }

  lemma WithoutMultiset<T>(s: seq<T>, i: nat)
    requires i < |s|
    ensures multiset(Without(s, i)) == multiset(s) - multiset{s[i]}
    ensures multiset(s) == multiset{s[i]} + multiset(Without(s, i))
  {
    assert s == s[..i] + ([s[i]] + s[i + 1..]);
  }

  lemma MapOfWithout<T, U>(f: T -> U, s: seq<T>, i: nat)
    requires i < |s|
    ensures Map(f, Without(s, i)) == Without(Map(f, s), i)
  {
    MapAppend(f, s[..i], s[i + 1..]);
    MapSlice(f, s, 0, i);
    MapSlice(f, s, i + 1, |s|);
  }

  lemma MapWithout<T, U>(f: T -> U, s: seq<T>, i: nat)
    requires i < |s|
    ensures multiset(Map(f, s)) == multiset{f(s[i])} + multiset(Map(f, Without(s, i)))
  {
    MapOfWithout(f, s, i);
    WithoutMultiset(Map(f, s), i);
  }

  lemma {:induction false} MapMultiset<T, U>(f: T -> U, a: seq<T>, b: seq<T>)
    requires multiset(a) == multiset(b)
    ensures multiset(Map(f, a)) == multiset(Map(f, b))
    decreases |a|
  {
    assert |a| == |multiset(a)| && |b| == |multiset(b)|;
    if a != [] {
      assert a[0] in multiset(b);
      var i :| 0 <= i < |b| && b[i] == a[0];
      WithoutMultiset(a, 0);
      WithoutMultiset(b, i);
      MapMultiset(f, Without(a, 0), Without(b, i));
      MapWithout(f, a, 0);
      MapWithout(f, b, i);
    }
  }

  lemma SortedHead(a: seq<Key>, b: seq<Key>)
    requires a != [] && SortedBy(k => k, a) && b != [] && b[0] in a
    ensures !KeyLess(b[0], a[0])
  {
    var i :| 0 <= i < |a| && a[i] == b[0];
    KeyConnected(a[0], a[0]);
  }

  lemma SameHead(a: seq<Key>, b: seq<Key>)
    requires SortedBy(k => k, a) && SortedBy(k => k, b)
    requires a != [] && b != [] && a[0] in b && b[0] in a
    ensures a[0] == b[0]
  {
    SortedHead(a, b);
    SortedHead(b, a);
    KeyConnected(a[0], b[0]);
  }

  lemma SortedTail(a: seq<Key>)
    requires SortedBy(k => k, a) && a != []
    ensures SortedBy(k => k, a[1..])
  {
    var c := a[1..];
    assert forall i | 0 <= i < |c| :: c[i] == a[i + 1];
  }

  lemma HeadMultiset<T>(a: seq<T>)
    requires a != []
    ensures a == [a[0]] + a[1..] && multiset(a) == multiset{a[0]} + multiset(a[1..])
  {
    assert a == [a[0]] + a[1..];
  }

  lemma TailsAgree<T>(a: seq<T>, b: seq<T>)
    requires a != [] && b != [] && a[0] == b[0] && multiset(a) == multiset(b)
    ensures multiset(a[1..]) == multiset(b[1..])
  {
    HeadMultiset(a);
    HeadMultiset(b);
    assert multiset(a[1..]) == multiset(a) - multiset{a[0]};
    assert multiset(b[1..]) == multiset(b) - multiset{b[0]};
  }

  lemma {:induction false} SortedKeysUnique(a: seq<Key>, b: seq<Key>)
    requires SortedBy(k => k, a) && SortedBy(k => k, b)
    requires multiset(a) == multiset(b)
    ensures a == b
    decreases |a|
  {
    MultisetMembers(a, b);
    if a != [] {
      assert a[0] in a && b[0] in b;
      SameHead(a, b);
      SortedTail(a);
      SortedTail(b);
      TailsAgree(a, b);
      SortedKeysUnique(a[1..], b[1..]);
      HeadMultiset(a);
      HeadMultiset(b);
    }
  }

  /** Two listings with the same keys sort to the same sequence of keys. */
  lemma SortedKeysAgree<T(!new)>(key: T -> Key, a: seq<T>, b: seq<T>)
    requires multiset(Map(key, a)) == multiset(Map(key, b))
    ensures Map(key, SortBy(key, a)) == Map(key, SortBy(key, b))
  {
    MapMultiset(key, SortBy(key, a), a);
    MapMultiset(key, SortBy(key, b), b);
    SortedKeysUnique(Map(key, SortBy(key, a)), Map(key, SortBy(key, b)));
  }

  /** Equal keys carry equal payloads. */
  predicate KeyDetermines<T, P(==)>(key: T -> Key, payload: T -> P, s: seq<T>) {
    forall i, j | 0 <= i < |s| && 0 <= j < |s| && key(s[i]) == key(s[j]) :: payload(s[i]) == payload(s[j])
  }

  lemma SortForgetsOrder<T(!new), P>(key: T -> Key, payload: T -> P, a: seq<T>, b: seq<T>)
    requires multiset(a) == multiset(b) && KeyDetermines(key, payload, a)
    ensures Map(payload, SortBy(key, a)) == Map(payload, SortBy(key, b))
  {
    var r, q := SortBy(key, a), SortBy(key, b);
    MapMultiset(key, a, b);
    SortedKeysAgree(key, a, b);
    MultisetMembers(a, b);
    forall i | 0 <= i < |r| ensures payload(r[i]) == payload(q[i]) {
      assert key(r[i]) == Map(key, r)[i] == Map(key, q)[i] == key(q[i]);
      assert r[i] in a && q[i] in a;
    }
  }

  /** When a key does not decide the payload, two listings of the same records sort differently. */
  lemma SortShowsOrder<T(!new), P>(key: T -> Key, payload: T -> P, s: seq<T>) returns (a: seq<T>, b: seq<T>)
    requires !KeyDetermines(key, payload, s)
    ensures multiset(a) == multiset(s) && multiset(b) == multiset(s)
    ensures Map(payload, SortBy(key, a)) != Map(payload, SortBy(key, b))
  {
    var i, j :| 0 <= i < |s| && 0 <= j < |s| && key(s[i]) == key(s[j]) && payload(s[i]) != payload(s[j]);
    a, b := ToFront(s, i, j), ToFront(s, j, i);
    ToFrontMultiset(s, i, j);
    ToFrontMultiset(s, j, i);
    SameRest(s, i, j);
    ShowsOrder(key, payload, s[i], s[j], Without(Without(s, j), if i < j then i else i - 1));
  }

  lemma SameRest<T>(s: seq<T>, i: nat, j: nat)
    requires i < |s| && j < |s| && i != j
    ensures Without(Without(s, j), if i < j then i else i - 1) == Without(Without(s, i), if j < i then j else j - 1)
  {
    var a, b := Without(Without(s, j), if i < j then i else i - 1), Without(Without(s, i), if j < i then j else j - 1);
    var lo, hi := if i < j then i else j, if i < j then j else i;
    forall k | 0 <= k < |s| - 2 ensures a[k] == b[k] {
      assert a[k] == s[if k < lo then k else if k + 1 < hi then k + 1 else k + 2];
    }
  }

  /** s with its elements i and j moved to the front. */
  function ToFront<T>(s: seq<T>, i: nat, j: nat): seq<T>
    requires i < |s| && j < |s| && i != j
  {
    [s[i]] + ([s[j]] + Without(Without(s, j), if i < j then i else i - 1))
  }

  lemma ToFrontMultiset<T>(s: seq<T>, i: nat, j: nat)
    requires i < |s| && j < |s| && i != j
    ensures multiset(ToFront(s, i, j)) == multiset(s)
  {
    var t, k := Without(s, j), if i < j then i else i - 1;
    assert t[k] == s[i];
    WithoutMultiset(s, j);
    WithoutMultiset(t, k);
    ConsMultiset(s[j], Without(t, k));
    ConsMultiset(s[i], [s[j]] + Without(t, k));
  }

  lemma ConsMultiset<T>(x: T, s: seq<T>)
    ensures multiset([x] + s) == multiset{x} + multiset(s)
  {}

  lemma ShowsOrder<T(!new), P>(key: T -> Key, payload: T -> P, x: T, y: T, rest: seq<T>)
    requires key(x) == key(y) && payload(x) != payload(y)
    ensures Map(payload, SortBy(key, [x] + ([y] + rest))) != Map(payload, SortBy(key, [y] + ([x] + rest)))
  {
    var c, d := [y] + rest, [x] + rest;
    var a, b := [x] + c, [y] + d;
    assert a[1..] == c && b[1..] == d;
    assert Map(key, c) == [key(y)] + Map(key, rest) by { assert c[1..] == rest; }
    assert Map(key, d) == [key(x)] + Map(key, rest) by { assert d[1..] == rest; }
    SortedKeysAgree(key, c, d);
    SameBelow(key, key(x), SortBy(key, c), SortBy(key, d));
    var p := Below(key, key(x), SortBy(key, c));
    assert SortBy(key, a) == InsertBy(key, x, SortBy(key, c));
    assert SortBy(key, b) == InsertBy(key, y, SortBy(key, d));
    assert Map(payload, SortBy(key, a))[p] == payload(x);
    assert Map(payload, SortBy(key, b))[p] == payload(y);
  }

  lemma SameBelow<T>(key: T -> Key, k: Key, a: seq<T>, b: seq<T>)
    requires Map(key, a) == Map(key, b)
    ensures Below(key, k, a) == Below(key, k, b)
  {
    var p, q := Below(key, k, a), Below(key, k, b);
    assert |a| == |b|;
    assert forall i | 0 <= i < |a| :: key(a[i]) == Map(key, a)[i] == key(b[i]);
  }

  // ----- sequences without repetition -----

  predicate Unique<T(==)>(s: seq<T>) {
    forall i, j | 0 <= i < j < |s| :: s[i] != s[j]
  }

  lemma {:induction false} UniqueCounts<T>(s: seq<T>)
    ensures Unique(s) <==> forall x | x in s :: multiset(s)[x] == 1
  {
    if s != [] {
      var x, rest := s[0], s[1..];
      assert s == [x] + rest;
      UniqueCounts(rest);
      if x in rest {
        var k :| 0 <= k < |rest| && rest[k] == x;
        assert s[0] == s[k + 1];
        assert multiset(rest)[x] >= 1 && multiset(s)[x] >= 2;
      } else {
        assert multiset(rest)[x] == 0;
        assert forall y | y in rest :: multiset(s)[y] == multiset(rest)[y];
        assert Unique(s) <==> Unique(rest) by {
          assert forall i | 0 < i < |s| :: s[i] == rest[i - 1];
        }
      }
    }
  }

  lemma UniquePermutes<T(!new)>(a: seq<T>, b: seq<T>)
    requires multiset(a) == multiset(b)
    ensures Unique(a) <==> Unique(b)
  {
    UniqueCounts(a);
    UniqueCounts(b);
    MultisetMembers(a, b);
  }

  /** Listings without repetition that have the same members are permutations of each other. */
  lemma UniqueSameMembers<T(!new)>(a: seq<T>, b: seq<T>)
    requires Unique(a) && Unique(b) && forall x :: x in a <==> x in b
    ensures multiset(a) == multiset(b)
  {
    UniqueCounts(a);
    UniqueCounts(b);
    forall x ensures multiset(a)[x] == multiset(b)[x] {
      assert x in a <==> x in multiset(a);
      assert x in b <==> x in multiset(b);
    }
  }

  lemma UniqueSnoc<T>(s: seq<T>, x: T)
    ensures Unique(s + [x]) <==> Unique(s) && x !in s
  {
    var t := s + [x];
    if Unique(t) {
      assert forall i | 0 <= i < |s| :: t[i] == s[i];
      assert t[|s|] == x;
    }
  }

  /** Elements with the same key are the same, if no key repeats. */
  lemma UniqueKey<T, U>(f: T -> U, s: seq<T>, x: T, y: T)
    requires Unique(Map(f, s)) && x in s && y in s && f(x) == f(y)
    ensures x == y
  {
    var i :| 0 <= i < |s| && s[i] == x;
    var j :| 0 <= j < |s| && s[j] == y;
    assert Map(f, s)[i] == Map(f, s)[j];
  }

  lemma UniqueJoin<T>(a: seq<T>, b: seq<T>)
    requires Unique(a) && Unique(b) && forall x | x in b :: x !in a
    ensures Unique(a + b)
  {
    var s := a + b;
    forall i, j | 0 <= i < j < |s| ensures s[i] != s[j] {
      if i < |a| <= j { assert s[j] == b[j - |a|] && b[j - |a|] in b && a[i] in a; }
    }
  }

  lemma UniquePrefix<T>(a: seq<T>, b: seq<T>)
    ensures Unique(a + b) ==> Unique(a)
  {
    assert forall i | 0 <= i < |a| :: (a + b)[i] == a[i];
  }

  lemma PrefixSnoc<T>(s: seq<T>, i: nat)
    requires i < |s|
    ensures s[..i + 1] == s[..i] + [s[i]]
  {}

  // ----- loops that append zero or more results per element -----

  function FlatMap<T, U>(f: T -> seq<U>, s: seq<T>): (r: seq<U>) {
    if s == [] then [] else FlatMap(f, s[..|s| - 1]) + f(s[|s| - 1])
  }

  lemma FlatMapStep<T, U>(f: T -> seq<U>, s: seq<T>, i: nat)
    requires i < |s|
    ensures FlatMap(f, s[..i + 1]) == FlatMap(f, s[..i]) + f(s[i])
  {
    assert s[..i + 1][..i] == s[..i];
  }

  lemma {:induction false} FlatMapMembers<T, U>(f: T -> seq<U>, s: seq<T>, u: U)
    ensures u in FlatMap(f, s) <==> exists i | 0 <= i < |s| :: u in f(s[i])
  {
    if s != [] {
      var init := s[..|s| - 1];
      FlatMapMembers(f, init, u);
      if i :| 0 <= i < |s| && u in f(s[i]) {
        assert i == |s| - 1 || init[i] == s[i];
      }
    }
  }

  /** Results listed element by element inherit the strict order of the elements. */
  lemma {:induction false} FlatMapIncreasing<T, U>(key: T -> Key, f: T -> seq<U>, resultKey: U -> Key, s: seq<T>)
    requires Increasing(key, s)
    requires forall i | 0 <= i < |s| :: |f(s[i])| <= 1 && forall u | u in f(s[i]) :: resultKey(u) == key(s[i])
    ensures Increasing(resultKey, FlatMap(f, s))
  {
    if s != [] {
      var n := |s| - 1;
      var init := s[..n];
      var before, last := FlatMap(f, init), f(s[n]);
      FlatMapIncreasing(key, f, resultKey, init);
      forall i, j | 0 <= i < j < |before + last| ensures KeyLess(resultKey((before + last)[i]), resultKey((before + last)[j])) {
        if j >= |before| {
          FlatMapMembers(f, init, before[i]);
          var k :| 0 <= k < |init| && before[i] in f(init[k]);
          assert resultKey(before[i]) == key(s[k]);
          assert last[j - |before|] in f(s[n]);
        }
      }
    }
  }

  lemma {:induction false} FlatMapAppend<T, U>(f: T -> seq<U>, a: seq<T>, b: seq<T>)
    ensures FlatMap(f, a + b) == FlatMap(f, a) + FlatMap(f, b)
  {
    if b == [] {
      assert a + b == a;
    } else {
      var n := |b| - 1;
      FlatMapAppend(f, a, b[..n]);
      assert (a + b)[..|a + b| - 1] == a + b[..n];
    }
  }

  lemma FlatMapOne<T, U>(f: T -> seq<U>, s: seq<T>, x: T)
    ensures FlatMap(f, s + [x]) == FlatMap(f, s) + f(x)
  {
    assert (s + [x])[..|s|] == s;
  }

  lemma FlatMapMiddle<T, U>(f: T -> seq<U>, a: seq<T>, x: T, b: seq<T>)
    ensures multiset(FlatMap(f, a + [x] + b)) == multiset(f(x)) + multiset(FlatMap(f, a + b))
  {
    FlatMapAppend(f, a + [x], b);
    FlatMapOne(f, a, x);
    FlatMapAppend(f, a, b);
    MiddleMultiset(FlatMap(f, a), f(x), FlatMap(f, b));
  }

  lemma AroundIndex<T>(s: seq<T>, i: nat)
    requires i < |s|
    ensures s[..i] + [s[i]] + s[i + 1..] == s
  {}

  lemma FlatMapWithout<T, U>(f: T -> seq<U>, s: seq<T>, i: nat)
    requires i < |s|
    ensures multiset(FlatMap(f, s)) == multiset(f(s[i])) + multiset(FlatMap(f, Without(s, i)))
  {
    AroundIndex(s, i);
    FlatMapMiddle(f, s[..i], s[i], s[i + 1..]);
  }

  /** Listing the elements in another order permutes the results. */
  lemma {:induction false} FlatMapMultiset<T, U>(f: T -> seq<U>, a: seq<T>, b: seq<T>)
    requires multiset(a) == multiset(b)
    ensures multiset(FlatMap(f, a)) == multiset(FlatMap(f, b))
    decreases |a|
  {
    assert |a| == |multiset(a)| && |b| == |multiset(b)|;
    if a != [] {
      assert a[0] in multiset(b);
      var i :| 0 <= i < |b| && b[i] == a[0];
      WithoutMultiset(a, 0);
      WithoutMultiset(b, i);
      FlatMapMultiset(f, Without(a, 0), Without(b, i));
      FlatMapWithout(f, a, 0);
      FlatMapWithout(f, b, i);
    }
  }

  /** One step of a loop that refuses a repeated f-value. */
  lemma UniqueMapStep<T, U>(f: T -> U, s: seq<T>, i: nat)
    requires i < |s|
    ensures Map(f, s[..i + 1]) == Map(f, s[..i]) + [f(s[i])]
    ensures Unique(Map(f, s[..i + 1])) <==> Unique(Map(f, s[..i])) && f(s[i]) !in Map(f, s[..i])
    ensures Unique(Map(f, s)) ==> Unique(Map(f, s[..i + 1]))
  {
    var a, b, m := Map(f, s[..i]), Map(f, s[..i + 1]), Map(f, s);
    assert b == a + [f(s[i])];
    UniqueSnoc(a, f(s[i]));
    assert forall k | 0 <= k < |b| :: b[k] == m[k];
  }

  // ----- lists of lists -----

  function Concat<T>(parts: seq<seq<T>>): seq<T> {
    if parts == [] then [] else parts[0] + Concat(parts[1..])
  }

  lemma {:induction false} ConcatSnoc<T>(parts: seq<seq<T>>, last: seq<T>)
    ensures Concat(parts + [last]) == Concat(parts) + last
  {
    if parts == [] {
      assert [last][1..] == [];
    } else {
      ConcatSnoc(parts[1..], last);
      assert (parts + [last])[1..] == parts[1..] + [last];
    }
  }

  lemma ConcatCons<T>(head: seq<T>, rest: seq<seq<T>>)
    ensures Concat([head] + rest) == head + Concat(rest)
  {
    assert ([head] + rest)[1..] == rest;
  }

  lemma {:induction false} ConcatAppend<T>(a: seq<seq<T>>, b: seq<seq<T>>)
    ensures Concat(a + b) == Concat(a) + Concat(b)
  {
    if a == [] {
      assert a + b == b;
    } else {
      ConcatAppend(a[1..], b);
      ConcatCons(a[0], a[1..] + b);
      assert a + b == [a[0]] + (a[1..] + b);
    }
  }
}
