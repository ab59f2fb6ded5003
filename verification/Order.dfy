/** Total orders, maxima of finite sets, and the one sorted arrangement of a multiset. */
module Order {
  ghost predicate Total<T(!new)>(le: (T, T) -> bool) {
    && (forall x :: le(x, x))
    && (forall x, y :: le(x, y) || le(y, x))
    && (forall x, y :: le(x, y) && le(y, x) ==> x == y)
    && (forall x, y, z :: le(x, y) && le(y, z) ==> le(x, z))
  }

  /** Python's comparison of strings: code point by code point, a prefix first. */
  predicate TextLe(a: string, b: string) {
    if a == "" then true
    else if b == "" then false
    else if a[0] != b[0] then a[0] < b[0]
    else TextLe(a[1..], b[1..])
  }

  lemma {:induction false} TextTotal(a: string, b: string)
    ensures TextLe(a, b) || TextLe(b, a)
    ensures TextLe(a, b) && TextLe(b, a) ==> a == b
  {
    if a != "" && b != "" && a[0] == b[0] {
      TextTotal(a[1..], b[1..]);
      assert a == [a[0]] + a[1..] && b == [b[0]] + b[1..];
    }
  }

  lemma {:induction false} TextTransitive(a: string, b: string, c: string)
    requires TextLe(a, b) && TextLe(b, c)
    ensures TextLe(a, c)
  {
    if a != "" && b != "" && c != "" && a[0] == b[0] && b[0] == c[0] {
      TextTransitive(a[1..], b[1..], c[1..]);
    }
  }

  /** The order of a dictionary: one text begins the other, or the first character that differs decides. */
  lemma {:induction false} TextLeMeans(a: string, b: string)
    ensures TextLe(a, b) <==>
      a <= b || exists k :: 0 <= k < |a| && k < |b| && a[..k] == b[..k] && a[k] < b[k]
  {
    if a != "" && b != "" && a[0] == b[0] {
      var s, t := a[1..], b[1..];
      TextLeMeans(s, t);
      assert a == [a[0]] + s && b == [b[0]] + t;
      if k :| 0 <= k < |s| && k < |t| && s[..k] == t[..k] && s[k] < t[k] {
        assert a[..k + 1] == [a[0]] + s[..k] && b[..k + 1] == [b[0]] + t[..k];
        assert a[k + 1] < b[k + 1];
      }
      if k :| 0 <= k < |a| && k < |b| && a[..k] == b[..k] && a[k] < b[k] {
        assert s[..k - 1] == a[..k][1..] && t[..k - 1] == b[..k][1..];
        assert s[k - 1] < t[k - 1];
      }
    } else if a != "" && b != "" && a[0] < b[0] {
      assert a[..0] == b[..0];
    } else if a != "" && b != "" {
      forall k | 0 < k < |a| && k < |b| ensures a[..k] != b[..k] { assert a[..k][0] != b[..k][0]; }
    }
  }

  lemma TextLeIsTotal()
    ensures Total(TextLe)
  {
    forall a, b ensures TextLe(a, b) || TextLe(b, a)
                ensures TextLe(a, b) && TextLe(b, a) ==> a == b {
      TextTotal(a, b);
    }
    forall a ensures TextLe(a, a) { TextTotal(a, a); }
    forall a, b, c | TextLe(a, b) && TextLe(b, c) ensures TextLe(a, c) {
      TextTransitive(a, b, c);
    }
  }

  /** Python's comparison of a pair of strings. */
  predicate PairLe(a: (string, string), b: (string, string)) {
    if a.0 != b.0 then TextLe(a.0, b.0) else TextLe(a.1, b.1)
  }

  lemma PairLeIsTotal()
    ensures Total(PairLe)
  {
    TextLeIsTotal();
    forall a: (string, string), b: (string, string), c: (string, string) | PairLe(a, b) && PairLe(b, c)
      ensures PairLe(a, c)
    {
      assert TextLe(a.0, b.0) && TextLe(b.0, c.0) ==> TextLe(a.0, c.0);
    }
  }

  /** A finite non-empty set has a greatest element under a total order. */
  lemma {:induction false} GreatestExists<T(!new)>(s: set<T>, le: (T, T) -> bool) returns (g: T)
    requires s != {} && Total(le)
    ensures g in s && forall x :: x in s ==> le(x, g)
  {
    var a :| a in s;
    var rest := s - {a};
    if rest == {} {
      g := a;
    } else {
      var b := GreatestExists(rest, le);
      g := if le(b, a) then a else b;
    }
    assert forall x :: x in s ==> x == a || x in rest;
  }

  ghost predicate Sorted<T(!new)>(s: seq<T>, le: (T, T) -> bool) {
    forall i, j :: 0 <= i < j < |s| ==> le(s[i], s[j])
  }

  lemma HeadIsLeast<T(!new)>(s: seq<T>, x: T, le: (T, T) -> bool)
    requires Total(le) && Sorted(s, le) && s != [] && x in multiset(s)
    ensures le(s[0], x)
  {}

  /** Two sorted arrangements of one multiset are the same sequence. */
  lemma {:induction false} SortedUnique<T(!new)>(a: seq<T>, b: seq<T>, le: (T, T) -> bool)
    requires Total(le) && Sorted(a, le) && Sorted(b, le)
    requires multiset(a) == multiset(b)
    ensures a == b
  {
    assert |multiset(a)| == |a| && |multiset(b)| == |b|;
    if a != [] {
      assert a == [a[0]] + a[1..] && b == [b[0]] + b[1..];
      assert a[0] in multiset(a) && b[0] in multiset(b);
      HeadIsLeast(a, b[0], le);
      HeadIsLeast(b, a[0], le);
      assert a[0] == b[0];
      assert multiset(a[1..]) == multiset(a) - multiset{a[0]};
      assert multiset(b[1..]) == multiset(b) - multiset{b[0]};
      SortedUnique(a[1..], b[1..], le);
    }
  }

  function Insert<T>(x: T, s: seq<T>, le: (T, T) -> bool): seq<T> {
    if s == [] || le(x, s[0]) then [x] + s else [s[0]] + Insert(x, s[1..], le)
  }

  /** Python's `sorted` */
  function Sort<T>(s: seq<T>, le: (T, T) -> bool): seq<T> {
    if s == [] then [] else Insert(s[0], Sort(s[1..], le), le)
  }

  lemma {:induction false} InsertSorts<T(!new)>(x: T, s: seq<T>, le: (T, T) -> bool)
    requires Total(le) && Sorted(s, le)
    ensures Sorted(Insert(x, s, le), le)
    ensures multiset(Insert(x, s, le)) == multiset(s) + multiset{x}
  {
    if s != [] && !le(x, s[0]) {
      InsertSorts(x, s[1..], le);
      var r := Insert(x, s[1..], le);
      assert s == [s[0]] + s[1..];
      forall k | 0 <= k < |r| ensures le(s[0], r[k]) {
        assert r[k] in multiset(r);
        assert r[k] == x || r[k] in s[1..];
      }
    } else if s != [] {
      assert forall k :: 0 <= k < |s| ==> le(s[0], s[k]);
    }
  }

  lemma {:induction false} SortSorts<T(!new)>(s: seq<T>, le: (T, T) -> bool)
    requires Total(le)
    ensures Sorted(Sort(s, le), le) && multiset(Sort(s, le)) == multiset(s)
  {
    if s != [] {
      SortSorts(s[1..], le);
      InsertSorts(s[0], Sort(s[1..], le), le);
      assert s == [s[0]] + s[1..];
    }
  }

  /** Sorting forgets exactly the order: equal results mean equal multisets, and conversely. */
  lemma SortEqualIffSameMultiset<T(!new)>(a: seq<T>, b: seq<T>, le: (T, T) -> bool)
    requires Total(le)
    ensures Sort(a, le) == Sort(b, le) <==> multiset(a) == multiset(b)
  {
    SortSorts(a, le);
    SortSorts(b, le);
    if multiset(a) == multiset(b) {
      SortedUnique(Sort(a, le), Sort(b, le), le);
    }
  }
}
