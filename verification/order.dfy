/**
 Python's ordering of strings and of tuples of strings, and `sorted` as a stable
 insertion sort with the laws the rest of the model needs: it is a permutation, it is
 ordered, it commutes with filtering (stability), and its result does not depend on
 the input order when equal keys imply equal elements.
 */
module Order {
  /** `a <= b` on Python strings: by code point, a proper prefix first. */
  predicate StrLe(a: string, b: string) {
    a == [] || (b != [] && (a[0] < b[0] || (a[0] == b[0] && StrLe(a[1..], b[1..]))))
  }

  lemma {:induction false} StrLeTotal(a: string, b: string)
    ensures StrLe(a, b) || StrLe(b, a)
  {
    if a != [] && b != [] && a[0] == b[0] { StrLeTotal(a[1..], b[1..]); }
  }

  lemma {:induction false} StrLeAntisymmetric(a: string, b: string)
    requires StrLe(a, b) && StrLe(b, a)
    ensures a == b
  {
    if a != [] && b != [] {
      StrLeAntisymmetric(a[1..], b[1..]);
      assert a == [a[0]] + a[1..] && b == [b[0]] + b[1..];
    }
  }

  lemma {:induction false} StrLeTransitive(a: string, b: string, c: string)
    requires StrLe(a, b) && StrLe(b, c)
    ensures StrLe(a, c)
  {
    if a != [] && a[0] == b[0] == c[0] { StrLeTransitive(a[1..], b[1..], c[1..]); }
  }

  /** A sort key: a tuple of strings. */
  type Key = seq<string>

  predicate KeyLe(a: Key, b: Key) {
    a == [] || (b != [] && if a[0] == b[0] then KeyLe(a[1..], b[1..]) else StrLe(a[0], b[0]))
  }

  lemma {:induction false} KeyLeTotal(a: Key, b: Key)
    ensures KeyLe(a, b) || KeyLe(b, a)
  {
    if a != [] && b != [] {
      StrLeTotal(a[0], b[0]);
      KeyLeTotal(a[1..], b[1..]);
    }
  }

  lemma {:induction false} KeyLeAntisymmetric(a: Key, b: Key)
    requires KeyLe(a, b) && KeyLe(b, a)
    ensures a == b
  {
    if a != [] && b != [] {
      if a[0] != b[0] { StrLeAntisymmetric(a[0], b[0]); }
      KeyLeAntisymmetric(a[1..], b[1..]);
      assert a == [a[0]] + a[1..] && b == [b[0]] + b[1..];
    }
  }

  lemma {:induction false} KeyLeTransitive(a: Key, b: Key, c: Key)
    requires KeyLe(a, b) && KeyLe(b, c)
    ensures KeyLe(a, c)
  {
    if a != [] {
      if a[0] == b[0] == c[0] {
        KeyLeTransitive(a[1..], b[1..], c[1..]);
      } else {
        if a[0] != b[0] && b[0] != c[0] { StrLeTransitive(a[0], b[0], c[0]); }
        if a[0] == c[0] { StrLeAntisymmetric(a[0], b[0]); }
      }
    }
  }

  /** Inserts before the first element whose key is not smaller, so equal keys keep their order. */
  function Insert<T>(x: T, s: seq<T>, key: T -> Key): seq<T> {
    if s == [] then [x]
    else if KeyLe(key(x), key(s[0])) then [x] + s
    else [s[0]] + Insert(x, s[1..], key)
  }

  /** Python's `sorted(s, key=key)`. */
  function SortBy<T>(s: seq<T>, key: T -> Key): seq<T> {
    if s == [] then [] else Insert(s[0], SortBy(s[1..], key), key)
  }

  function StrKey(s: string): Key { [s] }

  /** Python's `sorted(s)` on strings. */
  function Sorted(s: seq<string>): seq<string> { SortBy(s, StrKey) }

  ghost predicate Ordered<T>(s: seq<T>, key: T -> Key) {
    forall i, j :: 0 <= i < j < |s| ==> KeyLe(key(s[i]), key(s[j]))
  }

  lemma {:induction false} InsertMultiset<T>(x: T, s: seq<T>, key: T -> Key)
    ensures multiset(Insert(x, s, key)) == multiset{x} + multiset(s)
  {
    if s != [] && !KeyLe(key(x), key(s[0])) {
      InsertMultiset(x, s[1..], key);
      assert s == [s[0]] + s[1..];
    }
  }

  lemma {:induction false} SortMultiset<T>(s: seq<T>, key: T -> Key)
    ensures multiset(SortBy(s, key)) == multiset(s)
    ensures |SortBy(s, key)| == |s|
  {
    if s != [] {
      SortMultiset(s[1..], key);
      InsertMultiset(s[0], SortBy(s[1..], key), key);
      assert s == [s[0]] + s[1..];
    }
    assert |multiset(SortBy(s, key))| == |SortBy(s, key)|;
  }

  lemma SortMembers<T>(s: seq<T>, key: T -> Key)
    ensures |SortBy(s, key)| == |s|
    ensures forall x :: x in SortBy(s, key) <==> x in s
  {
    SortMultiset(s, key);
    forall x ensures x in SortBy(s, key) <==> x in s {
      assert x in SortBy(s, key) <==> x in multiset(SortBy(s, key));
      assert x in s <==> x in multiset(s);
    }
  }

  lemma {:induction false} InsertOrdered<T>(x: T, s: seq<T>, key: T -> Key)
    requires Ordered(s, key)
    ensures Ordered(Insert(x, s, key), key)
  {
    if s != [] {
      if KeyLe(key(x), key(s[0])) {
        forall j | 0 <= j < |s| ensures KeyLe(key(x), key(s[j])) {
          if j > 0 { KeyLeTransitive(key(x), key(s[0]), key(s[j])); }
        }
      } else {
        KeyLeTotal(key(x), key(s[0]));
        InsertOrdered(x, s[1..], key);
        var r := Insert(x, s[1..], key);
        InsertMultiset(x, s[1..], key);
        forall j | 0 <= j < |r| ensures KeyLe(key(s[0]), key(r[j])) {
          assert r[j] in multiset(r);
          assert r[j] == x || r[j] in s[1..];
        }
      }
    }
  }

  lemma {:induction false} SortOrdered<T>(s: seq<T>, key: T -> Key)
    ensures Ordered(SortBy(s, key), key)
  {
    if s != [] {
      SortOrdered(s[1..], key);
      InsertOrdered(s[0], SortBy(s[1..], key), key);
    }
  }

  /** Elements of `s` that share a key are equal. */
  ghost predicate KeyDetermines<T(!new)>(s: seq<T>, key: T -> Key) {
    forall x, y :: x in s && y in s && key(x) == key(y) ==> x == y
  }

  lemma MultisetHead<T>(s: seq<T>)
    requires s != []
    ensures multiset(s) == multiset{s[0]} + multiset(s[1..])
  {
    assert s == [s[0]] + s[1..];
  }

  /** The sequence without its element `i`. */
  function Without<T>(s: seq<T>, i: nat): seq<T>
    requires i < |s|
  {
    s[..i] + s[i + 1..]
  }

  lemma WithoutMultiset<T>(s: seq<T>, i: nat)
    requires i < |s|
    ensures multiset(s) == multiset{s[i]} + multiset(Without(s, i))
  {
    assert s == s[..i] + [s[i]] + s[i + 1..];
  }

  /** Same elements: the head of `a` stands somewhere in `b`, and the rests match. */
  lemma MultisetPairOff<T>(a: seq<T>, b: seq<T>)
    requires a != []
    ensures multiset(a) == multiset(b)
       <==> exists j :: 0 <= j < |b| && b[j] == a[0] && multiset(a[1..]) == multiset(Without(b, j))
  {
    MultisetHead(a);
    if multiset(a) == multiset(b) {
      assert a[0] in multiset(b);
      var j :| 0 <= j < |b| && b[j] == a[0];
      WithoutMultiset(b, j);
      assert multiset(a[1..]) == multiset(a) - multiset{a[0]};
      assert multiset(Without(b, j)) == multiset(b) - multiset{b[j]};
    }
    if j :| 0 <= j < |b| && b[j] == a[0] && multiset(a[1..]) == multiset(Without(b, j)) {
      WithoutMultiset(b, j);
    }
  }

  /** Two ordered arrangements of the same elements start with the same element. */
  lemma OrderedHead<T(!new)>(a: seq<T>, b: seq<T>, key: T -> Key)
    requires Ordered(a, key) && Ordered(b, key) && a != [] && b != []
    requires a[0] in b && b[0] in a
    requires KeyDetermines(a, key)
    ensures a[0] == b[0]
  {
    var i :| 0 <= i < |b| && b[i] == a[0];
    var j :| 0 <= j < |a| && a[j] == b[0];
    KeyLeTotal(key(a[0]), key(a[0]));
    KeyLeTotal(key(b[0]), key(b[0]));
    assert KeyLe(key(b[0]), key(b[i])) && KeyLe(key(a[0]), key(a[j]));
    KeyLeAntisymmetric(key(a[0]), key(b[0]));
  }

  lemma TailsMatch<T>(a: seq<T>, b: seq<T>)
    requires multiset(a) == multiset(b) && a != [] && b != [] && a[0] == b[0]
    ensures multiset(a[1..]) == multiset(b[1..])
  {
    MultisetHead(a);
    MultisetHead(b);
    assert multiset(a[1..]) == multiset(a) - multiset{a[0]};
  }

  lemma KeyDeterminesTail<T(!new)>(a: seq<T>, key: T -> Key)
    requires KeyDetermines(a, key) && a != []
    ensures KeyDetermines(a[1..], key)
  {
    assert forall x :: x in a[1..] ==> x in a;
  }

  lemma {:induction false} OrderedUnique<T(!new)>(a: seq<T>, b: seq<T>, key: T -> Key)
    requires Ordered(a, key) && Ordered(b, key)
    requires multiset(a) == multiset(b)
    requires KeyDetermines(a, key)
    ensures a == b
  {
    assert |multiset(a)| == |a| && |multiset(b)| == |b|;
    if a != [] {
      assert a[0] in b by { assert a[0] in multiset(b); }
      assert b[0] in a by { assert b[0] in multiset(a); }
      OrderedHead(a, b, key);
      TailsMatch(a, b);
      KeyDeterminesTail(a, key);
      OrderedUnique(a[1..], b[1..], key);
      assert a == [a[0]] + a[1..] && b == [b[0]] + b[1..];
    }
  }

  /** Sorting forgets the input order when the key determines the element. */
  lemma SortPermutation<T(!new)>(s: seq<T>, t: seq<T>, key: T -> Key)
    requires multiset(s) == multiset(t)
    requires KeyDetermines(s, key)
    ensures SortBy(s, key) == SortBy(t, key)
  {
    SortMultiset(s, key);
    SortMultiset(t, key);
    SortMembers(s, key);
    SortOrdered(s, key);
    SortOrdered(t, key);
    OrderedUnique(SortBy(s, key), SortBy(t, key), key);
  }

  /** Sorting plain strings never depends on the input order. */
  lemma SortedPermutation(s: seq<string>, t: seq<string>)
    requires multiset(s) == multiset(t)
    ensures Sorted(s) == Sorted(t)
  {
    SortPermutation(s, t, StrKey);
  }

  function Filter<T>(s: seq<T>, p: T -> bool): seq<T> {
    if s == [] then [] else (if p(s[0]) then [s[0]] else []) + Filter(s[1..], p)
  }

  lemma FilterCons<T>(x: T, s: seq<T>, p: T -> bool)
    ensures Filter([x] + s, p) == (if p(x) then [x] else []) + Filter(s, p)
  {
    assert ([x] + s)[0] == x && ([x] + s)[1..] == s;
  }

  lemma FilterSingleton<T>(x: T, p: T -> bool)
    ensures Filter([x], p) == if p(x) then [x] else []
  {
    assert [x][1..] == [];
  }

  lemma FilterHead<T>(s: seq<T>, p: T -> bool)
    requires s != []
    ensures multiset(Filter(s, p)) == multiset(Filter(s[1..], p)) + if p(s[0]) then multiset{s[0]} else multiset{}
  {
    if p(s[0]) { MultisetHead(Filter(s, p)); assert Filter(s, p)[1..] == Filter(s[1..], p); }
  }

  lemma SortCons<T>(x: T, s: seq<T>, key: T -> Key)
    ensures SortBy([x] + s, key) == Insert(x, SortBy(s, key), key)
  {
    assert ([x] + s)[0] == x && ([x] + s)[1..] == s;
  }

  lemma Associative<T>(x: seq<T>, y: seq<T>, z: seq<T>)
    ensures (x + y) + z == x + (y + z)
  {
  }

  lemma {:induction false} FilterAppend<T>(s: seq<T>, t: seq<T>, p: T -> bool)
    ensures Filter(s + t, p) == Filter(s, p) + Filter(t, p)
  {
    if s == [] {
      assert s + t == t;
    } else {
      assert (s + t)[0] == s[0] && (s + t)[1..] == s[1..] + t;
      FilterAppend(s[1..], t, p);
      Associative(if p(s[0]) then [s[0]] else [], Filter(s[1..], p), Filter(t, p));
    }
  }

  lemma {:induction false} FilterMember<T>(s: seq<T>, p: T -> bool, x: T)
    ensures x in Filter(s, p) <==> x in s && p(x)
  {
    if s != [] {
      FilterMember(s[1..], p, x);
      assert s == [s[0]] + s[1..];
    }
  }

  lemma {:induction false} FilterAll<T>(s: seq<T>, p: T -> bool)
    requires forall x :: x in s ==> p(x)
    ensures Filter(s, p) == s
  {
    if s != [] { FilterAll(s[1..], p); }
  }

  lemma {:induction false} FilterNone<T>(s: seq<T>, p: T -> bool)
    requires forall x :: x in s ==> !p(x)
    ensures Filter(s, p) == []
  {
    if s != [] { FilterNone(s[1..], p); }
  }

  /** A key below every key of `s` is inserted at the front. */
  lemma InsertFront<T>(x: T, s: seq<T>, key: T -> Key)
    requires forall y :: y in s ==> KeyLe(key(x), key(y))
    ensures Insert(x, s, key) == [x] + s
  {}

  lemma {:induction false} InsertFilter<T>(x: T, s: seq<T>, key: T -> Key, p: T -> bool)
    requires Ordered(s, key)
    ensures Filter(Insert(x, s, key), p)
         == if p(x) then Insert(x, Filter(s, p), key) else Filter(s, p)
  {
    if s != [] {
      if KeyLe(key(x), key(s[0])) {
        assert ([x] + s)[1..] == s;
        forall y | y in s ensures KeyLe(key(x), key(y)) {
          var j :| 0 <= j < |s| && s[j] == y;
          if j > 0 { KeyLeTransitive(key(x), key(s[0]), key(s[j])); }
        }
        var f := Filter(s, p);
        forall y | y in f ensures KeyLe(key(x), key(y)) { FilterMember(s, p, y); }
        InsertFront(x, f, key);
        FilterCons(x, s, p);
      } else {
        InsertFilter(x, s[1..], key, p);
        FilterCons(s[0], Insert(x, s[1..], key), p);
        var f := Filter(s[1..], p);
        if p(s[0]) {
          assert ([s[0]] + f)[0] == s[0] && ([s[0]] + f)[1..] == f;
          assert Insert(x, [s[0]] + f, key) == [s[0]] + Insert(x, f, key);
          assert Filter(s, p) == [s[0]] + f;
        } else {
          assert Filter(s, p) == f;
        }
      }
    }
  }

  /** Stability: a stable sort and a filter commute. */
  lemma {:induction false} SortFilter<T>(s: seq<T>, key: T -> Key, p: T -> bool)
    ensures Filter(SortBy(s, key), p) == SortBy(Filter(s, p), key)
  {
    if s != [] {
      SortFilter(s[1..], key, p);
      SortOrdered(s[1..], key);
      InsertFilter(s[0], SortBy(s[1..], key), key, p);
      var f := Filter(s[1..], p);
      if p(s[0]) {
        assert Filter(s, p) == [s[0]] + f;
        SortCons(s[0], f, key);
      } else {
        assert Filter(s, p) == f;
      }
    }
  }

  ghost predicate Distinct<T>(s: seq<T>) {
    forall i, j :: 0 <= i < j < |s| ==> s[i] != s[j]
  }

  lemma DistinctCons<T>(x: T, s: seq<T>)
    requires Distinct(s) && x !in s
    ensures Distinct([x] + s)
  {
    var all := [x] + s;
    forall i, j | 0 <= i < j < |all| ensures all[i] != all[j] {
      assert all[j] == s[j - 1] && s[j - 1] in s;
      if i > 0 { assert all[i] == s[i - 1]; }
    }
  }

  lemma {:induction false} DistinctCounts<T>(s: seq<T>)
    ensures Distinct(s) <==> forall x :: multiset(s)[x] <= 1
  {
    if s != [] {
      MultisetHead(s);
      DistinctCounts(s[1..]);
      if Distinct(s) {
        assert Distinct(s[1..]);
        assert s[0] !in multiset(s[1..]);
      } else if Distinct(s[1..]) {
        var i, j :| 0 <= i < j < |s| && s[i] == s[j];
        assert i == 0 && s[1..][j - 1] == s[0];
        assert s[0] in multiset(s[1..]);
        assert multiset(s)[s[0]] >= 2;
      } else {
        var x :| multiset(s[1..])[x] > 1;
        assert multiset(s)[x] > 1;
      }
    }
  }

  lemma DistinctPermutation<T>(s: seq<T>, t: seq<T>)
    requires multiset(s) == multiset(t)
    ensures Distinct(s) <==> Distinct(t)
  {
    DistinctCounts(s);
    DistinctCounts(t);
  }

  predicate IsMinimum(m: string, s: set<string>) {
    m in s && forall x :: x in s ==> StrLe(m, x)
  }

  lemma {:induction false} MinimumExists(s: set<string>)
    requires s != {}
    ensures exists m :: IsMinimum(m, s)
    decreases |s|
  {
    var y :| y in s;
    StrLeTotal(y, y);
    if s == {y} {
      assert IsMinimum(y, s);
    } else {
      assert s == s - {y} + {y};
      MinimumExists(s - {y});
      var m :| IsMinimum(m, s - {y});
      StrLeTotal(y, m);
      if StrLe(y, m) {
        forall x | x in s ensures StrLe(y, x) {
          if x != y { StrLeTransitive(y, m, x); }
        }
        assert IsMinimum(y, s);
      } else {
        assert IsMinimum(m, s);
      }
    }
  }

  lemma MinimumUnique(s: set<string>, a: string, b: string)
    requires IsMinimum(a, s) && IsMinimum(b, s)
    ensures a == b
  {
    StrLeAntisymmetric(a, b);
  }

  function Minimum(s: set<string>): (m: string)
    requires s != {}
    ensures IsMinimum(m, s)
  {
    MinimumExists(s);
    assert forall a, b | a in s && IsMinimum(a, s) && b in s && IsMinimum(b, s) :: a == b by {
      forall a, b | a in s && IsMinimum(a, s) && b in s && IsMinimum(b, s) ensures a == b {
        MinimumUnique(s, a, b);
      }
    }
    var m :| m in s && IsMinimum(m, s);
    m
  }

  /** Python's `sorted(s)` on a set of strings. */
  function SortedSet(s: set<string>): (r: seq<string>)
    ensures |r| == |s|
    ensures forall x :: x in r <==> x in s
    ensures Distinct(r)
  {
    if s == {} then [] else
    var m := Minimum(s);
    [m] + SortedSet(s - {m})
  }

  lemma {:induction false} SortedSetOrdered(s: set<string>)
    ensures Ordered(SortedSet(s), StrKey)
  {
    if s != {} { SortedSetOrdered(s - {Minimum(s)}); }
  }

  /** The concatenation of `f(x)` over the elements of `s`: a loop that appends. */
  function Collect<T, U>(s: seq<T>, f: T -> seq<U>): seq<U> {
    if s == [] then [] else f(s[0]) + Collect(s[1..], f)
  }

  lemma {:induction false} CollectAppend<T, U>(s: seq<T>, t: seq<T>, f: T -> seq<U>)
    ensures Collect(s + t, f) == Collect(s, f) + Collect(t, f)
  {
    if s == [] {
      assert s + t == t;
    } else {
      assert (s + t)[0] == s[0] && (s + t)[1..] == s[1..] + t;
      CollectAppend(s[1..], t, f);
    }
  }

  /** One more iteration of an appending loop. */
  lemma CollectStep<T, U>(s: seq<T>, i: nat, f: T -> seq<U>)
    requires i < |s|
    ensures Collect(s[..i + 1], f) == Collect(s[..i], f) + f(s[i])
  {
    assert s[..i + 1] == s[..i] + [s[i]];
    CollectAppend(s[..i], [s[i]], f);
    assert Collect([s[i]], f) == f(s[i]) + Collect([], f);
  }

  /** The loop `for x in s: out.extend(f(x))`. */
  method CollectEach<T, U>(s: seq<T>, f: T -> seq<U>) returns (out: seq<U>)
    ensures out == Collect(s, f)
  {
    out := [];
    for i := 0 to |s|
      invariant out == Collect(s[..i], f)
    {
      CollectStep(s, i, f);
      out := out + f(s[i]);
    }
    assert s[..|s|] == s;
  }

  lemma FilterStep<T>(s: seq<T>, i: nat, p: T -> bool)
    requires i < |s|
    ensures Filter(s[..i + 1], p) == Filter(s[..i], p) + if p(s[i]) then [s[i]] else []
  {
    assert s[..i + 1] == s[..i] + [s[i]];
    FilterAppend(s[..i], [s[i]], p);
  }

  lemma {:induction false} CollectSame<T, U>(s: seq<T>, f: T -> seq<U>, g: T -> seq<U>)
    requires forall x :: x in s ==> f(x) == g(x)
    ensures Collect(s, f) == Collect(s, g)
  {
    if s != [] { CollectSame(s[1..], f, g); }
  }

  lemma {:induction false} CollectEmpty<T, U>(s: seq<T>, f: T -> seq<U>)
    ensures Collect(s, f) == [] <==> forall x :: x in s ==> f(x) == []
  {
    if s != [] { CollectEmpty(s[1..], f); }
  }

  lemma {:induction false} CollectMember<T, U>(s: seq<T>, f: T -> seq<U>, y: U)
    ensures y in Collect(s, f) <==> exists x :: x in s && y in f(x)
  {
    if s != [] {
      CollectMember(s[1..], f, y);
      assert s == [s[0]] + s[1..];
    }
  }

  lemma {:induction false} CollectAround<T, U>(t: seq<T>, j: nat, f: T -> seq<U>)
    requires j < |t|
    ensures multiset(Collect(t, f)) == multiset(f(t[j])) + multiset(Collect(Without(t, j), f))
  {
    if j == 0 {
      assert Without(t, 0) == t[1..];
    } else {
      CollectAround(t[1..], j - 1, f);
      var w := Without(t, j);
      assert w[0] == t[0] && w[1..] == Without(t[1..], j - 1);
      assert Collect(w, f) == f(t[0]) + Collect(w[1..], f);
    }
  }

  /** Concatenating over a permutation gives a permutation of the concatenation. */
  lemma {:induction false} CollectPermutation<T, U>(s: seq<T>, t: seq<T>, f: T -> seq<U>)
    requires multiset(s) == multiset(t)
    ensures multiset(Collect(s, f)) == multiset(Collect(t, f))
    ensures |Collect(s, f)| == |Collect(t, f)|
  {
    if s == [] {
      assert |multiset(t)| == |t|;
    } else {
      MultisetPairOff(s, t);
      var j :| 0 <= j < |t| && t[j] == s[0] && multiset(s[1..]) == multiset(Without(t, j));
      CollectPermutation(s[1..], Without(t, j), f);
      CollectAround(t, j, f);
    }
    assert |multiset(Collect(s, f))| == |Collect(s, f)| && |multiset(Collect(t, f))| == |Collect(t, f)|;
  }

  function Keep<T>(p: T -> bool): T -> seq<T> { x => if p(x) then [x] else [] }

  lemma {:induction false} FilterIsCollect<T>(s: seq<T>, p: T -> bool)
    ensures Filter(s, p) == Collect(s, Keep(p))
  {
    if s != [] { FilterIsCollect(s[1..], p); }
  }

  /** Filtering a permutation gives a permutation of the filtered sequence. */
  lemma FilterPermutation<T>(s: seq<T>, t: seq<T>, p: T -> bool)
    requires multiset(s) == multiset(t)
    ensures multiset(Filter(s, p)) == multiset(Filter(t, p))
    ensures |Filter(s, p)| == |Filter(t, p)|
  {
    FilterIsCollect(s, p);
    FilterIsCollect(t, p);
    CollectPermutation(s, t, Keep(p));
  }

  lemma {:induction false} CollectSameLength<T, U>(s: seq<T>, f: T -> seq<U>, g: T -> seq<U>)
    requires forall x :: x in s ==> |f(x)| == |g(x)|
    ensures |Collect(s, f)| == |Collect(s, g)|
  {
    if s != [] { CollectSameLength(s[1..], f, g); }
  }

  function Members<T>(s: seq<T>): set<T> { set x | x in s }

  /** `len(s) == len(set(s))`: no element repeats. */
  lemma {:induction false} DistinctBySize<T>(s: seq<T>)
    ensures |Members(s)| <= |s|
    ensures |Members(s)| == |s| <==> Distinct(s)
  {
    if s != [] {
      DistinctBySize(s[1..]);
      assert Members(s) == Members(s[1..]) + {s[0]};
      if s[0] in Members(s[1..]) {
        assert Members(s) == Members(s[1..]);
        var i :| 0 <= i < |s[1..]| && s[1..][i] == s[0];
        assert s[i + 1] == s[0];
      } else {
        assert forall j :: 0 < j < |s| ==> s[j] == s[1..][j - 1];
        if Distinct(s[1..]) {
          forall i, j | 0 <= i < j < |s| ensures s[i] != s[j] {
            if i > 0 { assert s[1..][i - 1] != s[1..][j - 1]; }
          }
        } else {
          var i, j :| 0 <= i < j < |s[1..]| && s[1..][i] == s[1..][j];
          assert s[i + 1] == s[j + 1];
        }
      }
    }
  }

  /** Sorting an ordered sequence changes nothing. */
  lemma {:induction false} SortOfOrdered<T>(s: seq<T>, key: T -> Key)
    requires Ordered(s, key)
    ensures SortBy(s, key) == s
  {
    if s != [] {
      SortOfOrdered(s[1..], key);
      assert s == [s[0]] + s[1..];
      if |s| > 1 { assert KeyLe(key(s[0]), key(s[1])); }
    }
  }
}
