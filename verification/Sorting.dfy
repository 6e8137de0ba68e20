/**
 The orders the node sorts by and the sorted form of a sequence, which stands for the sort
 package: what matters is that the result is sorted and holds exactly the same elements.
 */
module Sorting {

  // Strings in byte order.
  predicate LexLe(a: string, b: string) {
    a == [] || (b != [] && (a[0] < b[0] || (a[0] == b[0] && LexLe(a[1..], b[1..]))))
  }

  lemma {:induction false} LexTotal(a: string, b: string)
    ensures LexLe(a, b) || LexLe(b, a)
    ensures LexLe(a, b) && LexLe(b, a) ==> a == b
    decreases |a|
  {
    if a != [] && b != [] && a[0] == b[0] {
      LexTotal(a[1..], b[1..]);
      assert a == [a[0]] + a[1..] && b == [b[0]] + b[1..];
    }
  }

  lemma {:induction false} LexTransitive(a: string, b: string, c: string)
    requires LexLe(a, b) && LexLe(b, c)
    ensures LexLe(a, c)
    decreases |a|
  {
    if a != [] && a[0] == b[0] && b[0] == c[0] {
      LexTransitive(a[1..], b[1..], c[1..]);
    }
  }

  ghost predicate IsOrder<T(!new)>(le: (T, T) -> bool) {
    && (forall x, y :: le(x, y) || le(y, x))
    && (forall x, y :: le(x, y) && le(y, x) ==> x == y)
    && (forall x, y, z :: le(x, y) && le(y, z) ==> le(x, z))
  }

  ghost predicate Sorted<T>(le: (T, T) -> bool, s: seq<T>) {
    forall i, j :: 0 <= i < j < |s| ==> le(s[i], s[j])
  }

  function Insert<T>(le: (T, T) -> bool, x: T, s: seq<T>): seq<T> {
    if s == [] || le(x, s[0]) then [x] + s else [s[0]] + Insert(le, x, s[1..])
  }

  function Sort<T>(le: (T, T) -> bool, s: seq<T>): seq<T> {
    if s == [] then [] else Insert(le, s[0], Sort(le, s[1..]))
  }

  lemma {:induction false} InsertKeepsElements<T>(le: (T, T) -> bool, x: T, s: seq<T>)
    ensures multiset(Insert(le, x, s)) == multiset([x] + s)
    ensures forall y :: y in Insert(le, x, s) ==> y == x || y in s
    decreases |s|
  {
    if s != [] && !le(x, s[0]) {
      InsertKeepsElements(le, x, s[1..]);
      assert s == [s[0]] + s[1..];
    }
  }

  lemma {:induction false} InsertSorts<T(!new)>(le: (T, T) -> bool, x: T, s: seq<T>)
    requires IsOrder(le) && Sorted(le, s)
    ensures Sorted(le, Insert(le, x, s))
    decreases |s|
  {
    if s == [] || le(x, s[0]) {
      assert forall j :: 0 <= j < |s| ==> le(x, s[j]);
    } else {
      InsertSorts(le, x, s[1..]);
      InsertKeepsElements(le, x, s[1..]);
      var r := Insert(le, x, s[1..]);
      forall i | 0 <= i < |r| ensures le(s[0], r[i]) {
        assert r[i] == x || r[i] in s[1..];
      }
    }
  }

  lemma {:induction false} SortSorts<T(!new)>(le: (T, T) -> bool, s: seq<T>)
    requires IsOrder(le)
    ensures Sorted(le, Sort(le, s)) && multiset(Sort(le, s)) == multiset(s)
    ensures forall x :: x in Sort(le, s) <==> x in s
    ensures |Sort(le, s)| == |s|
    decreases |s|
  {
    if s != [] {
      SortSorts(le, s[1..]);
      InsertSorts(le, s[0], Sort(le, s[1..]));
      InsertKeepsElements(le, s[0], Sort(le, s[1..]));
      assert s == [s[0]] + s[1..];
    }
    SameMembers(Sort(le, s), s);
  }

  lemma SameMembers<T>(a: seq<T>, b: seq<T>)
    requires multiset(a) == multiset(b)
    ensures forall x :: x in a <==> x in b
    ensures |a| == |b|
  {
    forall x ensures x in a <==> x in b {
      assert x in a <==> x in multiset(a);
      assert x in b <==> x in multiset(b);
    }
    assert |a| == |multiset(a)| && |b| == |multiset(b)|;
  }

  predicate Distinct<T(==)>(s: seq<T>) {
    forall i, j :: 0 <= i < j < |s| ==> s[i] != s[j]
  }

  lemma {:induction false} DistinctCounts<T>(s: seq<T>)
    ensures Distinct(s) <==> forall x :: multiset(s)[x] <= 1
    decreases |s|
  {
    if s != [] {
      var t := s[1..];
      assert s == [s[0]] + t;
      DistinctCounts(t);
      DistinctHead(s[0], t);
      assert forall x :: multiset(s)[x] == multiset(t)[x] + if x == s[0] then 1 else 0;
      assert s[0] in t <==> s[0] in multiset(t);
      if forall x :: multiset(s)[x] <= 1 {
        assert multiset(s)[s[0]] <= 1;
        forall x ensures multiset(t)[x] <= 1 {
          assert multiset(s)[x] <= 1;
        }
      }
    }
  }

  lemma DistinctHead<T>(x: T, t: seq<T>)
    ensures Distinct([x] + t) <==> x !in t && Distinct(t)
  {
    var s := [x] + t;
    assert forall i :: 0 <= i < |t| ==> s[i + 1] == t[i];
    if Distinct(s) {
      forall i | 0 <= i < |t| ensures t[i] != x {
        assert s[0] != s[i + 1];
      }
      forall i, j | 0 <= i < j < |t| ensures t[i] != t[j] {
        assert s[i + 1] != s[j + 1];
      }
    }
  }

  lemma SortKeepsDistinct<T(!new)>(le: (T, T) -> bool, s: seq<T>)
    requires IsOrder(le)
    ensures Distinct(Sort(le, s)) <==> Distinct(s)
  {
    SortSorts(le, s);
    DistinctCounts(s);
    DistinctCounts(Sort(le, s));
  }

  // --- The three orders in use -----------------------------------------------------------------

  const IntOrder := (a: int, b: int) => a <= b

  const StringOrder := (a: string, b: string) => LexLe(a, b)

  datatype OnlineUser = OnlineUser(uid: int, ip: string)

  // By uid, then by IP.
  const UserOrder := (a: OnlineUser, b: OnlineUser) => a.uid < b.uid || (a.uid == b.uid && LexLe(a.ip, b.ip))

  lemma Orders()
    ensures IsOrder(IntOrder) && IsOrder(StringOrder) && IsOrder(UserOrder)
  {
    forall a, b ensures LexLe(a, b) || LexLe(b, a) {
      LexTotal(a, b);
    }
    forall a, b ensures LexLe(a, b) && LexLe(b, a) ==> a == b {
      LexTotal(a, b);
    }
    forall a, b, c ensures LexLe(a, b) && LexLe(b, c) ==> LexLe(a, c) {
      if LexLe(a, b) && LexLe(b, c) {
        LexTransitive(a, b, c);
      }
    }
  }
}
