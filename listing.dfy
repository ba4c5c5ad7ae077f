/** What the repositories' `Find` queries return: the stored records that
    pass a filter, in the order of a sort key, and sums over stored records. */
module Listing {

  import opened Base

  /** `le` orders every pair and is transitive: a sort key with ties. */
  ghost predicate TotalPreorder<T(!new)>(le: (T, T) -> bool) {
    (forall a, b :: le(a, b) || le(b, a))
    && (forall a, b, c :: le(a, b) && le(b, c) ==> le(a, c))
  }

  predicate SortedBy<T>(s: seq<T>, le: (T, T) -> bool) {
    forall i, j :: 0 <= i < j < |s| ==> le(s[i], s[j])
  }

  /** No record is stored under two ids; true of every store whose records
      carry their own id. */
  ghost predicate Injective<T>(m: map<Id, T>) {
    forall k1, k2 | k1 in m && k2 in m && k1 != k2 :: m[k1] != m[k2]
  }

  /** `r` holds exactly the stored values that pass `keep`, each once. */
  ghost predicate ListsExactly<T(!new)>(r: seq<T>, m: map<Id, T>, keep: T -> bool) {
    (forall x :: x in r <==> x in m.Values && keep(x))
    && (forall x :: multiset(r)[x] <= 1)
  }

  /** Insert `x` into a sorted sequence, after every element that is not
      strictly greater. */
  function Insert<T(!new)>(x: T, s: seq<T>, le: (T, T) -> bool): (r: seq<T>)
    requires TotalPreorder(le) && SortedBy(s, le)
    ensures SortedBy(r, le)
    ensures multiset(r) == multiset(s) + multiset{x}
  {
    if |s| == 0 then [x]
    else if le(x, s[0]) then [x] + s
    else
      var rest := Insert(x, s[1..], le);
      assert s == [s[0]] + s[1..];
      FirstBelowAll(s[0], x, s[1..], rest, le);
      [s[0]] + rest
  }

  /** The head of a sorted sequence that `x` comes after is below everything
      the insertion into the tail produces. */
  lemma FirstBelowAll<T(!new)>(a: T, x: T, tail: seq<T>, rest: seq<T>, le: (T, T) -> bool)
    requires TotalPreorder(le) && SortedBy([a] + tail, le) && !le(x, a)
    requires SortedBy(rest, le) && multiset(rest) == multiset(tail) + multiset{x}
    ensures SortedBy([a] + rest, le)
  {
    forall j | 0 < j < |[a] + rest|
      ensures le(a, ([a] + rest)[j])
    {
      var y := rest[j - 1];
      assert ([a] + rest)[j] == y;
      assert y in multiset(rest);
      if y == x {
        assert le(a, x) || le(x, a);
      } else {
        assert y in multiset(tail);
        var i :| 0 <= i < |tail| && tail[i] == y;
        assert ([a] + tail)[0] == a && ([a] + tail)[i + 1] == y;
      }
    }
  }

  /** A query with a filter and a sort: the stored values passing `keep`,
      ordered by `le`. */
  method SelectSorted<T(==,!new)>(m: map<Id, T>, keep: T -> bool, le: (T, T) -> bool) returns (r: seq<T>)
    requires TotalPreorder(le) && Injective(m)
    ensures SortedBy(r, le)
    ensures ListsExactly(r, m, keep)
  {
    r := [];
    var rest := m.Keys;
    while rest != {}
      invariant rest <= m.Keys
      invariant SortedBy(r, le)
      invariant forall x :: multiset(r)[x] <= 1
      invariant forall x | x in r :: keep(x) && exists k :: k in m && k !in rest && m[k] == x
      invariant forall k | k in m && k !in rest && keep(m[k]) :: m[k] in r
      decreases rest
    {
      var k :| k in rest;
      if keep(m[k]) {
        var r' := Insert(m[k], r, le);
        assert m[k] in multiset(r');
        forall x | x in r'
          ensures keep(x) && exists k' :: k' in m && k' !in rest - {k} && m[k'] == x
        {
          assert x in multiset(r');
          if x != m[k] {
            assert x in multiset(r);
          }
        }
        forall y | y in r
          ensures y in r'
        {
          assert y in multiset(r);
          assert y in multiset(r');
        }
        r := r';
      }
      rest := rest - {k};
    }
    forall x | x in m.Values && keep(x)
      ensures x in r
    {
      var k :| k in m && m[k] == x;
    }
  }

  /** The smallest id of a non-empty set: the sums below visit the store in
      id order, so that two sums over the same store visit it alike. */
  ghost function LeastKey(keys: set<Id>): (k: Id)
    requires keys != {}
    ensures k in keys && forall j | j in keys :: k <= j
    decreases |keys|
  {
    var x :| x in keys;
    var rest := keys - {x};
    if rest == {} then
      assert forall j | j in keys :: j == x || j in rest;
      x
    else
      var k := LeastKey(rest);
      assert forall j | j in keys :: j == x || j in rest;
      if x < k then x else k
  }

  /** `f` summed over the stored values that pass `keep`: a `$group`
      `$sum` over a `$match`. */
  ghost function SumMap<T>(m: map<Id, T>, keep: T -> bool, f: T -> real): real
    decreases |m|
  {
    if |m| == 0 then 0.0
    else
      var k := LeastKey(m.Keys);
      (if keep(m[k]) then f(m[k]) else 0.0) + SumMap(m - {k}, keep, f)
  }

  /** The number of stored values that pass `keep`: a `$group` `$sum: 1`. */
  ghost function CountMap<T>(m: map<Id, T>, keep: T -> bool): nat
    decreases |m|
  {
    if |m| == 0 then 0
    else
      var k := LeastKey(m.Keys);
      (if keep(m[k]) then 1 else 0) + CountMap(m - {k}, keep)
  }

  /** Sum of `f` over a sequence, adding elements left to right. */
  function SumSeq<T>(s: seq<T>, f: T -> real): real {
    if |s| == 0 then 0.0 else SumSeq(s[..|s| - 1], f) + f(s[|s| - 1])
  }

  lemma {:induction false} SumSeqAppend<T>(s: seq<T>, t: seq<T>, f: T -> real)
    ensures SumSeq(s + t, f) == SumSeq(s, f) + SumSeq(t, f)
    decreases |t|
  {
    if |t| == 0 {
      assert s + t == s;
    } else {
      assert (s + t)[..|s + t| - 1] == s + t[..|t| - 1];
      SumSeqAppend(s, t[..|t| - 1], f);
    }
  }

  /** Taking one element out of a sequence takes its value out of the sum. */
  lemma SumSeqRemoveAt<T>(s: seq<T>, i: nat, f: T -> real)
    requires i < |s|
    ensures SumSeq(s, f) == f(s[i]) + SumSeq(s[..i] + s[i + 1..], f)
  {
    assert s == s[..i] + ([s[i]] + s[i + 1..]);
    SumSeqAppend(s[..i], [s[i]] + s[i + 1..], f);
    SumSeqAppend([s[i]], s[i + 1..], f);
    SumSeqAppend(s[..i], s[i + 1..], f);
    assert SumSeq([s[i]], f) == f(s[i]) by {
      assert [s[i]][..0] == [];
    }
  }

  /** Taking a listed value's key out of the store takes the value out of
      the listing. */
  lemma ListsExactlyTake<T(!new)>(r: seq<T>, m: map<Id, T>, keep: T -> bool, k: Id, i: nat)
    requires Injective(m) && ListsExactly(r, m, keep)
    requires k in m && i < |r| && r[i] == m[k]
    ensures Injective(m - {k}) && ListsExactly(r[..i] + r[i + 1..], m - {k}, keep)
  {
    var r' := r[..i] + r[i + 1..];
    var m' := m - {k};
    assert r == r[..i] + [r[i]] + r[i + 1..];
    assert multiset(r) == multiset(r') + multiset{m[k]};
    forall x ensures multiset(r')[x] <= 1 {
      assert multiset(r')[x] <= multiset(r)[x];
    }
    forall x ensures x in r' <==> x in m'.Values && keep(x) {
      if x in r' {
        assert x in multiset(r');
        assert x in r;
        assert multiset(r)[m[k]] <= 1 && multiset(r')[m[k]] == 0;
        var k' :| k' in m && m[k'] == x;
        assert k' in m' && m'[k'] == x;
      }
      if x in m'.Values && keep(x) {
        var k' :| k' in m' && m'[k'] == x;
        assert m[k'] == x && x != m[k];
        assert x in multiset(r);
        assert x in multiset(r');
      }
    }
  }

  /** A key whose value the filter drops can leave the store without
      changing the listing. */
  lemma ListsExactlySkip<T(!new)>(r: seq<T>, m: map<Id, T>, keep: T -> bool, k: Id)
    requires Injective(m) && ListsExactly(r, m, keep)
    requires k in m && !keep(m[k])
    ensures Injective(m - {k}) && ListsExactly(r, m - {k}, keep)
  {
    var m' := m - {k};
    forall x ensures x in r <==> x in m'.Values && keep(x) {
      if x in r {
        var k' :| k' in m && m[k'] == x;
        assert k' != k;
        assert k' in m' && m'[k'] == x;
      }
      if x in m'.Values {
        var k' :| k' in m' && m'[k'] == x;
        assert m[k'] == x;
      }
    }
  }

  lemma NothingListedFromEmpty<T(!new)>(r: seq<T>, m: map<Id, T>, keep: T -> bool)
    requires |m| == 0 && ListsExactly(r, m, keep)
    ensures r == []
  {
    assert m.Values == {};
    HeadIsMember(r);
    if |r| > 0 {
      assert false;
    }
  }

  lemma HeadIsMember<T>(s: seq<T>)
    ensures |s| > 0 ==> s[0] in s
  {
  }

  lemma SumMapStep<T>(m: map<Id, T>, keep: T -> bool, f: T -> real) returns (k: Id)
    requires |m| > 0
    ensures k in m
    ensures SumMap(m, keep, f) == (if keep(m[k]) then f(m[k]) else 0.0) + SumMap(m - {k}, keep, f)
  {
    k := LeastKey(m.Keys);
  }

  lemma CountMapStep<T>(m: map<Id, T>, keep: T -> bool) returns (k: Id)
    requires |m| > 0
    ensures k in m
    ensures CountMap(m, keep) == (if keep(m[k]) then 1 else 0) + CountMap(m - {k}, keep)
  {
    k := LeastKey(m.Keys);
  }

  /** A listing of a store sums to the store's own `$group` `$sum` over the
      same filter, whatever order it lists in. */
  lemma {:induction false} ListingSum<T(!new)>(r: seq<T>, m: map<Id, T>, keep: T -> bool, f: T -> real)
    requires Injective(m) && ListsExactly(r, m, keep)
    ensures SumSeq(r, f) == SumMap(m, keep, f)
    decreases |m|
  {
    if |m| == 0 {
      NothingListedFromEmpty(r, m, keep);
    } else {
      var k := SumMapStep(m, keep, f);
      if keep(m[k]) {
        assert m[k] in m.Values;
        var i :| 0 <= i < |r| && r[i] == m[k];
        ListsExactlyTake(r, m, keep, k, i);
        SumSeqRemoveAt(r, i, f);
        ListingSum(r[..i] + r[i + 1..], m - {k}, keep, f);
      } else {
        ListsExactlySkip(r, m, keep, k);
        ListingSum(r, m - {k}, keep, f);
      }
    }
  }

  /** A listing of a store is as long as the store's own `$group` count over
      the same filter. */
  lemma {:induction false} ListingCount<T(!new)>(r: seq<T>, m: map<Id, T>, keep: T -> bool)
    requires Injective(m) && ListsExactly(r, m, keep)
    ensures |r| == CountMap(m, keep)
    decreases |m|
  {
    if |m| == 0 {
      NothingListedFromEmpty(r, m, keep);
    } else {
      var k := CountMapStep(m, keep);
      if keep(m[k]) {
        assert m[k] in m.Values;
        var i :| 0 <= i < |r| && r[i] == m[k];
        ListsExactlyTake(r, m, keep, k, i);
        ListingCount(r[..i] + r[i + 1..], m - {k}, keep);
      } else {
        ListsExactlySkip(r, m, keep, k);
        ListingCount(r, m - {k}, keep);
      }
    }
  }

  /** Binary string order, character by character: the order of a `name`
      sort. */
  predicate StrLe(a: string, b: string)
    decreases |a|
  {
    |a| == 0 || (|b| > 0 && (a[0] < b[0] || (a[0] == b[0] && StrLe(a[1..], b[1..]))))
  }

  lemma {:induction false} StrLeTotal(a: string, b: string)
    ensures StrLe(a, b) || StrLe(b, a)
    decreases |a|
  {
    if |a| > 0 && |b| > 0 && a[0] == b[0] {
      StrLeTotal(a[1..], b[1..]);
    }
  }

  lemma {:induction false} StrLeTransitive(a: string, b: string, c: string)
    requires StrLe(a, b) && StrLe(b, c)
    ensures StrLe(a, c)
    decreases |a|
  {
    if |a| > 0 && a[0] == b[0] && b[0] == c[0] {
      StrLeTransitive(a[1..], b[1..], c[1..]);
    }
  }

  /** The order of an ascending sort on a string field. */
  function ByString<T>(key: T -> string): (T, T) -> bool {
    (x: T, y: T) => StrLe(key(x), key(y))
  }

  lemma ByStringIsTotalPreorder<T(!new)>(key: T -> string)
    ensures TotalPreorder(ByString(key))
  {
    forall x, y ensures ByString(key)(x, y) || ByString(key)(y, x) {
      StrLeTotal(key(x), key(y));
    }
    forall x, y, z | ByString(key)(x, y) && ByString(key)(y, z)
      ensures ByString(key)(x, z)
    {
      StrLeTransitive(key(x), key(y), key(z));
    }
  }

  /** The order of a sort on a numeric field, ascending or descending. */
  function ByReal<T>(key: T -> real, ascending: bool): (T, T) -> bool {
    (x: T, y: T) => if ascending then key(x) <= key(y) else key(x) >= key(y)
  }

  lemma ByRealIsTotalPreorder<T(!new)>(key: T -> real, ascending: bool)
    ensures TotalPreorder(ByReal(key, ascending))
  {
  }

  /** No sort at all: a query without a sort returns the records in an order
      the store chooses, which every order allows. */
  function AnyOrder<T>(): (T, T) -> bool {
    (x: T, y: T) => true
  }

  lemma AnyOrderIsTotalPreorder<T(!new)>()
    ensures TotalPreorder(AnyOrder<T>())
  {
  }

  /** `f` where `p` holds, zero elsewhere. */
  function Masked<T>(p: T -> bool, f: T -> real): T -> real {
    (x: T) => if p(x) then f(x) else 0.0
  }

  function Both<T>(keep: T -> bool, p: T -> bool): T -> bool {
    (x: T) => keep(x) && p(x)
  }

  /** Summing a masked value over one filter is summing the value over the
      narrower filter. */
  lemma {:induction false} SumMapMasked<T>(m: map<Id, T>, keep: T -> bool, p: T -> bool, f: T -> real)
    ensures SumMap(m, keep, Masked(p, f)) == SumMap(m, Both(keep, p), f)
    decreases |m|
  {
    if |m| > 0 {
      SumMapMasked(m - {LeastKey(m.Keys)}, keep, p, f);
    }
  }

  /** Two filters that keep the same values give the same sum. */
  lemma {:induction false} SumMapSameFilter<T>(m: map<Id, T>, keep1: T -> bool, keep2: T -> bool, f: T -> real)
    requires forall x :: keep1(x) == keep2(x)
    ensures SumMap(m, keep1, f) == SumMap(m, keep2, f)
    decreases |m|
  {
    if |m| > 0 {
      SumMapSameFilter(m - {LeastKey(m.Keys)}, keep1, keep2, f);
    }
  }
}
