/** sorted(), sums and comprehensions over lists, and what a reordering cannot change. */
module SortedLists {

  ghost predicate TotalOrder<T(!new)>(le: (T, T) -> bool) {
    && (forall a, b :: le(a, b) || le(b, a))
    && (forall a, b, c :: le(a, b) && le(b, c) ==> le(a, c))
  }

  ghost predicate Ordered<T>(le: (T, T) -> bool, xs: seq<T>) {
    forall i, j :: 0 <= i < j < |xs| ==> le(xs[i], xs[j])
  }

  /** Equal keys keep the order in which they arrived. */
  function Insert<T>(le: (T, T) -> bool, x: T, xs: seq<T>): (ys: seq<T>)
    ensures |ys| == |xs| + 1
  {
    if |xs| == 0 then [x]
    else if le(xs[0], x) then [xs[0]] + Insert(le, x, xs[1..])
    else [x] + xs
  }

  function Sort<T>(le: (T, T) -> bool, xs: seq<T>): (ys: seq<T>)
    ensures |ys| == |xs|
  {
    if |xs| == 0 then [] else Insert(le, xs[|xs| - 1], Sort(le, xs[..|xs| - 1]))
  }

  lemma {:induction false} InsertBag<T>(le: (T, T) -> bool, x: T, xs: seq<T>)
    ensures multiset(Insert(le, x, xs)) == multiset(xs) + multiset{x}
  {
    if |xs| > 0 && le(xs[0], x) {
      InsertBag(le, x, xs[1..]);
      assert xs == [xs[0]] + xs[1..];
    }
  }

  lemma {:induction false} InsertMembers<T>(le: (T, T) -> bool, x: T, xs: seq<T>, i: nat)
    requires i <= |xs|
    ensures Insert(le, x, xs)[i] == x || Insert(le, x, xs)[i] in xs
  {
    if |xs| > 0 && le(xs[0], x) && i > 0 {
      InsertMembers(le, x, xs[1..], i - 1);
    }
  }

  lemma {:induction false} InsertOrdered<T(!new)>(le: (T, T) -> bool, x: T, xs: seq<T>)
    requires TotalOrder(le) && Ordered(le, xs)
    ensures Ordered(le, Insert(le, x, xs))
  {
    if |xs| > 0 {
      if le(xs[0], x) {
        InsertOrdered(le, x, xs[1..]);
        var rest := Insert(le, x, xs[1..]);
        forall i | 0 <= i < |rest| ensures le(xs[0], rest[i]) {
          InsertMembers(le, x, xs[1..], i);
        }
      } else {
        assert forall i :: 0 < i < |xs| ==> le(xs[0], xs[i]);
      }
    }
  }

  lemma {:induction false} SortOrdered<T(!new)>(le: (T, T) -> bool, xs: seq<T>)
    requires TotalOrder(le)
    ensures Ordered(le, Sort(le, xs)) && multiset(Sort(le, xs)) == multiset(xs)
  {
    if |xs| > 0 {
      var m := |xs| - 1;
      SortOrdered(le, xs[..m]);
      InsertOrdered(le, xs[m], Sort(le, xs[..m]));
      InsertBag(le, xs[m], Sort(le, xs[..m]));
      assert xs == xs[..m] + [xs[m]];
    }
  }

  lemma InBag<T>(xs: seq<T>, i: nat)
    requires i < |xs|
    ensures xs[i] in multiset(xs)
  {
  }

  function Without<T>(xs: seq<T>, k: nat): seq<T>
    requires k < |xs|
  {
    xs[..k] + xs[k + 1..]
  }

  lemma WithoutBag<T>(xs: seq<T>, k: nat)
    requires k < |xs|
    ensures multiset(xs) == multiset(Without(xs, k)) + multiset{xs[k]}
  {
    assert xs == xs[..k] + ([xs[k]] + xs[k + 1..]);
  }

  lemma SameSize<T>(xs: seq<T>, ys: seq<T>)
    requires multiset(xs) == multiset(ys)
    ensures |xs| == |ys|
  {
    assert |multiset(xs)| == |multiset(ys)|;
  }

  lemma CancelBag<T>(a: multiset<T>, b: multiset<T>, x: T)
    requires a + multiset{x} == b + multiset{x}
    ensures a == b
  {
    forall y ensures a[y] == b[y] {
      assert (a + multiset{x})[y] == (b + multiset{x})[y];
    }
  }

  lemma LastOfBag<T>(xs: seq<T>, ys: seq<T>)
    requires |xs| > 0 && |ys| > 0 && multiset(xs) == multiset(ys) && xs[|xs| - 1] == ys[|ys| - 1]
    ensures multiset(xs[..|xs| - 1]) == multiset(ys[..|ys| - 1])
  {
    WithoutBag(xs, |xs| - 1);
    WithoutBag(ys, |ys| - 1);
    assert Without(xs, |xs| - 1) == xs[..|xs| - 1] && Without(ys, |ys| - 1) == ys[..|ys| - 1];
    CancelBag(multiset(xs[..|xs| - 1]), multiset(ys[..|ys| - 1]), xs[|xs| - 1]);
  }

  /** Two lists with the same elements: the last one of xs stands somewhere in ys. */
  lemma Peel<T>(xs: seq<T>, ys: seq<T>) returns (k: nat)
    requires |xs| > 0 && multiset(xs) == multiset(ys)
    ensures |ys| == |xs| && k < |ys| && ys[k] == xs[|xs| - 1]
    ensures multiset(xs[..|xs| - 1]) == multiset(Without(ys, k))
  {
    SameSize(xs, ys);
    InBag(xs, |xs| - 1);
    assert xs[|xs| - 1] in ys;
    k :| 0 <= k < |ys| && ys[k] == xs[|xs| - 1];
    WithoutBag(xs, |xs| - 1);
    WithoutBag(ys, k);
    assert Without(xs, |xs| - 1) == xs[..|xs| - 1];
    CancelBag(multiset(xs[..|xs| - 1]), multiset(Without(ys, k)), ys[k]);
  }

  lemma LastIsGreatest<T(!new)>(le: (T, T) -> bool, a: seq<T>, b: seq<T>)
    requires |a| > 0 && TotalOrder(le) && Ordered(le, b) && multiset(a) == multiset(b)
    ensures |b| == |a| && le(a[|a| - 1], b[|b| - 1])
  {
    var k := Peel(a, b);
    assert k < |b| - 1 ==> le(b[k], b[|b| - 1]);
  }

  /** Where comparable both ways means equal, the ordered arrangement of a bag is unique. */
  lemma {:induction false} OrderedUnique<T(!new)>(le: (T, T) -> bool, a: seq<T>, b: seq<T>)
    requires TotalOrder(le) && Ordered(le, a) && Ordered(le, b) && multiset(a) == multiset(b)
    requires forall i, j :: 0 <= i < |a| && 0 <= j < |a| && le(a[i], a[j]) && le(a[j], a[i]) ==> a[i] == a[j]
    ensures a == b
    decreases |a|
  {
    SameSize(a, b);
    if |a| > 0 {
      var m := |a| - 1;
      LastIsGreatest(le, a, b);
      LastIsGreatest(le, b, a);
      var k := Peel(b, a);
      assert le(a[k], a[m]) && le(a[m], a[k]) ==> a[k] == a[m];
      assert a[m] == b[m];
      LastOfBag(a, b);
      OrderedUnique(le, a[..m], b[..m]);
      assert a == a[..m] + [a[m]] && b == b[..m] + [b[m]];
    }
  }

  /** The comprehension [y for x in xs for y in f(x)]: a map, a filter, or both. */
  function Gather<S, T>(f: S -> seq<T>, xs: seq<S>): seq<T> {
    if |xs| == 0 then [] else Gather(f, xs[..|xs| - 1]) + f(xs[|xs| - 1])
  }

  lemma {:induction false} GatherWithout<S, T>(f: S -> seq<T>, xs: seq<S>, k: nat)
    requires k < |xs|
    ensures multiset(Gather(f, xs)) == multiset(Gather(f, Without(xs, k))) + multiset(f(xs[k]))
  {
    var m := |xs| - 1;
    if k < m {
      GatherWithout(f, xs[..m], k);
      assert Without(xs, k)[..m - 1] == Without(xs[..m], k);
      assert Without(xs, k)[m - 1] == xs[m];
    } else {
      assert Without(xs, k) == xs[..m];
    }
  }

  lemma {:induction false} GatherKeepsBags<S, T>(f: S -> seq<T>, xs: seq<S>, ys: seq<S>)
    requires multiset(xs) == multiset(ys)
    ensures multiset(Gather(f, xs)) == multiset(Gather(f, ys))
    decreases |xs|
  {
    SameSize(xs, ys);
    if |xs| > 0 {
      var k := Peel(xs, ys);
      GatherKeepsBags(f, xs[..|xs| - 1], Without(ys, k));
      GatherWithout(f, ys, k);
    }
  }

  function MapSeq<S, T>(f: S -> T, xs: seq<S>): (ys: seq<T>)
    ensures |ys| == |xs|
    ensures forall i :: 0 <= i < |xs| ==> ys[i] == f(xs[i])
  {
    seq(|xs|, i requires 0 <= i < |xs| => f(xs[i]))
  }

  /** An embedding of one order in another commutes with sorting. */
  ghost predicate Embeds<S(!new), T>(f: S -> T, le: (S, S) -> bool, to: (T, T) -> bool) {
    forall a, b :: le(a, b) <==> to(f(a), f(b))
  }

  lemma {:induction false} InsertCommutes<S(!new), T>(f: S -> T, le: (S, S) -> bool, to: (T, T) -> bool, x: S, xs: seq<S>)
    requires Embeds(f, le, to)
    ensures Insert(to, f(x), MapSeq(f, xs)) == MapSeq(f, Insert(le, x, xs))
  {
    if |xs| > 0 {
      assert MapSeq(f, xs)[1..] == MapSeq(f, xs[1..]);
      assert le(xs[0], x) <==> to(f(xs[0]), f(x));
      InsertCommutes(f, le, to, x, xs[1..]);
    }
  }

  lemma {:induction false} SortCommutes<S(!new), T>(f: S -> T, le: (S, S) -> bool, to: (T, T) -> bool, xs: seq<S>)
    requires Embeds(f, le, to)
    ensures Sort(to, MapSeq(f, xs)) == MapSeq(f, Sort(le, xs))
  {
    if |xs| > 0 {
      var m := |xs| - 1;
      assert MapSeq(f, xs)[..m] == MapSeq(f, xs[..m]);
      SortCommutes(f, le, to, xs[..m]);
      InsertCommutes(f, le, to, xs[m], Sort(le, xs[..m]));
    }
  }

  function SumReal(xs: seq<real>): real {
    if |xs| == 0 then 0.0 else SumReal(xs[..|xs| - 1]) + xs[|xs| - 1]
  }

  function SumInt(xs: seq<int>): int {
    if |xs| == 0 then 0 else SumInt(xs[..|xs| - 1]) + xs[|xs| - 1]
  }

  lemma {:induction false} SumRealWithout(xs: seq<real>, k: nat)
    requires k < |xs|
    ensures SumReal(xs) == SumReal(Without(xs, k)) + xs[k]
  {
    var m := |xs| - 1;
    if k < m {
      SumRealWithout(xs[..m], k);
      assert Without(xs, k)[..m - 1] == Without(xs[..m], k);
    } else {
      assert Without(xs, k) == xs[..m];
    }
  }

  lemma {:induction false} SumIntWithout(xs: seq<int>, k: nat)
    requires k < |xs|
    ensures SumInt(xs) == SumInt(Without(xs, k)) + xs[k]
  {
    var m := |xs| - 1;
    if k < m {
      SumIntWithout(xs[..m], k);
      assert Without(xs, k)[..m - 1] == Without(xs[..m], k);
    } else {
      assert Without(xs, k) == xs[..m];
    }
  }

  /** Sums do not depend on the order of the list. */
  lemma {:induction false} SumRealKeepsBags(xs: seq<real>, ys: seq<real>)
    requires multiset(xs) == multiset(ys)
    ensures SumReal(xs) == SumReal(ys)
    decreases |xs|
  {
    SameSize(xs, ys);
    if |xs| > 0 {
      var k := Peel(xs, ys);
      SumRealKeepsBags(xs[..|xs| - 1], Without(ys, k));
      SumRealWithout(ys, k);
    }
  }

  lemma {:induction false} SumIntKeepsBags(xs: seq<int>, ys: seq<int>)
    requires multiset(xs) == multiset(ys)
    ensures SumInt(xs) == SumInt(ys)
    decreases |xs|
  {
    SameSize(xs, ys);
    if |xs| > 0 {
      var k := Peel(xs, ys);
      SumIntKeepsBags(xs[..|xs| - 1], Without(ys, k));
      SumIntWithout(ys, k);
    }
  }

  function RealLe(a: real, b: real): bool { a <= b }
  function IntLe(a: int, b: int): bool { a <= b }

  /** sorted() of real numbers sees only the bag. */
  lemma SortRealsKeepsBags(xs: seq<real>, ys: seq<real>)
    requires multiset(xs) == multiset(ys)
    ensures Sort(RealLe, xs) == Sort(RealLe, ys)
  {
    SortOrdered(RealLe, xs);
    SortOrdered(RealLe, ys);
    OrderedUnique(RealLe, Sort(RealLe, xs), Sort(RealLe, ys));
  }

  // ------------------------------------------------------------- counting

  /** How many elements of a list satisfy p. */
  function Count<T>(p: T -> bool, xs: seq<T>): nat {
    if |xs| == 0 then 0 else Count(p, xs[..|xs| - 1]) + if p(xs[|xs| - 1]) then 1 else 0
  }

  lemma {:induction false} CountWithout<T>(p: T -> bool, xs: seq<T>, k: nat)
    requires k < |xs|
    ensures Count(p, xs) == Count(p, Without(xs, k)) + if p(xs[k]) then 1 else 0
  {
    var m := |xs| - 1;
    if k < m {
      CountWithout(p, xs[..m], k);
      assert Without(xs, k)[..m - 1] == Without(xs[..m], k);
    } else {
      assert Without(xs, k) == xs[..m];
    }
  }

  lemma {:induction false} CountKeepsBags<T>(p: T -> bool, xs: seq<T>, ys: seq<T>)
    requires multiset(xs) == multiset(ys)
    ensures Count(p, xs) == Count(p, ys)
    decreases |xs|
  {
    SameSize(xs, ys);
    if |xs| > 0 {
      var k := Peel(xs, ys);
      CountKeepsBags(p, xs[..|xs| - 1], Without(ys, k));
      CountWithout(p, ys, k);
    }
  }

  lemma {:induction false} CountOfStretch<T>(p: T -> bool, xs: seq<T>, lo: nat, hi: nat)
    requires lo <= hi <= |xs| && forall i :: lo <= i < hi ==> p(xs[i])
    ensures Count(p, xs) >= hi - lo
    decreases |xs|
  {
    if lo < hi {
      var m := |xs| - 1;
      if hi <= m {
        CountOfStretch(p, xs[..m], lo, hi);
      } else {
        CountOfStretch(p, xs[..m], lo, hi - 1);
      }
    }
  }

  lemma {:induction false} CountDisjoint<T>(p: T -> bool, q: T -> bool, xs: seq<T>)
    requires forall x :: x in xs ==> !(p(x) && q(x))
    ensures Count(p, xs) + Count(q, xs) <= |xs|
  {
    if |xs| > 0 {
      var m := |xs| - 1;
      assert xs[m] in xs;
      CountDisjoint(p, q, xs[..m]);
    }
  }

  function AtMost(v: real): real -> bool { x => x <= v }
  function AtLeast(v: real): real -> bool { x => x >= v }

  /** v is the value with k values before it when the list is put in ascending order. */
  ghost predicate Ranks(xs: seq<real>, k: nat, v: real) {
    v in xs && k < |xs| && Count(AtMost(v), xs) >= k + 1 && Count(AtLeast(v), xs) >= |xs| - k
  }

  lemma SortedMember<T(!new)>(le: (T, T) -> bool, xs: seq<T>, i: nat)
    requires TotalOrder(le) && i < |xs|
    ensures Sort(le, xs)[i] in xs
  {
    SortOrdered(le, xs);
    InBag(Sort(le, xs), i);
    assert Sort(le, xs)[i] in multiset(xs);
  }

  /** In an ordered arrangement of xs, k + 1 elements are at most element k. */
  lemma CountBefore<T(!new)>(le: (T, T) -> bool, p: T -> bool, xs: seq<T>, ys: seq<T>, k: nat)
    requires k < |ys| && Ordered(le, ys) && multiset(ys) == multiset(xs)
    requires forall a :: le(a, ys[k]) || a == ys[k] ==> p(a)
    ensures Count(p, xs) >= k + 1
  {
    forall i | 0 <= i < k + 1 ensures p(ys[i]) { assert i < k ==> le(ys[i], ys[k]); }
    CountOfStretch(p, ys, 0, k + 1);
    CountKeepsBags(p, ys, xs);
  }

  lemma CountAfter<T(!new)>(le: (T, T) -> bool, p: T -> bool, xs: seq<T>, ys: seq<T>, k: nat)
    requires k < |ys| && Ordered(le, ys) && multiset(ys) == multiset(xs)
    requires forall a :: le(ys[k], a) || a == ys[k] ==> p(a)
    ensures Count(p, xs) >= |xs| - k
  {
    SameSize(xs, ys);
    forall i | k <= i < |ys| ensures p(ys[i]) { assert k < i ==> le(ys[k], ys[i]); }
    CountOfStretch(p, ys, k, |ys|);
    CountKeepsBags(p, ys, xs);
  }

  lemma SortedRanks(xs: seq<real>, k: nat)
    requires k < |xs|
    ensures Ranks(xs, k, Sort(RealLe, xs)[k])
  {
    hide Sort, Count;
    var ys := Sort(RealLe, xs);
    SortOrdered(RealLe, xs);
    SortedMember(RealLe, xs, k);
    CountBefore(RealLe, AtMost(ys[k]), xs, ys, k);
    CountAfter(RealLe, AtLeast(ys[k]), xs, ys, k);
  }

  /** There is one value of each rank. */
  lemma RankUnique(xs: seq<real>, k: nat, v: real, w: real)
    requires Ranks(xs, k, v) && Ranks(xs, k, w)
    ensures v == w
  {
    if v < w {
      CountDisjoint(AtMost(v), AtLeast(w), xs);
    } else if w < v {
      CountDisjoint(AtMost(w), AtLeast(v), xs);
    }
  }

  lemma {:induction false} SumRealMoves(xs: seq<real>, i: nat, v: real)
    requires i < |xs|
    ensures SumReal(xs[i := v]) == SumReal(xs) + v - xs[i]
  {
    SumRealWithout(xs, i);
    SumRealWithout(xs[i := v], i);
    assert Without(xs[i := v], i) == Without(xs, i);
  }

  lemma {:induction false} SumIntMoves(xs: seq<int>, i: nat, v: int)
    requires i < |xs|
    ensures SumInt(xs[i := v]) == SumInt(xs) + v - xs[i]
  {
    SumIntWithout(xs, i);
    SumIntWithout(xs[i := v], i);
    assert Without(xs[i := v], i) == Without(xs, i);
  }

  lemma {:induction false} SumIntOfBoth(a: seq<int>, b: seq<int>)
    ensures SumInt(a + b) == SumInt(a) + SumInt(b)
  {
    if |b| > 0 {
      assert (a + b)[..|a + b| - 1] == a + b[..|b| - 1];
      SumIntOfBoth(a, b[..|b| - 1]);
    } else {
      assert a + b == a;
    }
  }

  lemma {:induction false} SumRealOfBoth(a: seq<real>, b: seq<real>)
    ensures SumReal(a + b) == SumReal(a) + SumReal(b)
  {
    if |b| > 0 {
      assert (a + b)[..|a + b| - 1] == a + b[..|b| - 1];
      SumRealOfBoth(a, b[..|b| - 1]);
    } else {
      assert a + b == a;
    }
  }

  /** Replacing one element of a list moves what is gathered from it by that element's share. */
  lemma SumIntGatherMoves<S>(f: S -> seq<int>, xs: seq<S>, i: nat, x: S)
    requires i < |xs|
    ensures SumInt(Gather(f, xs[i := x])) - SumInt(Gather(f, xs)) == SumInt(f(x)) - SumInt(f(xs[i]))
  {
    SumIntGatherSplit(f, xs, i);
    SumIntGatherSplit(f, xs[i := x], i);
    assert Without(xs[i := x], i) == Without(xs, i);
  }

  lemma SumIntGatherSplit<S>(f: S -> seq<int>, xs: seq<S>, i: nat)
    requires i < |xs|
    ensures SumInt(Gather(f, xs)) == SumInt(Gather(f, Without(xs, i))) + SumInt(f(xs[i]))
  {
    GatherWithout(f, xs, i);
    SumIntKeepsBags(Gather(f, xs), Gather(f, Without(xs, i)) + f(xs[i]));
    SumIntOfBoth(Gather(f, Without(xs, i)), f(xs[i]));
  }

  lemma SumRealGatherMoves<S>(f: S -> seq<real>, xs: seq<S>, i: nat, x: S)
    requires i < |xs|
    ensures SumReal(Gather(f, xs[i := x])) - SumReal(Gather(f, xs)) == SumReal(f(x)) - SumReal(f(xs[i]))
    ensures |Gather(f, xs[i := x])| - |Gather(f, xs)| == |f(x)| - |f(xs[i])|
  {
    SumRealGatherSplit(f, xs, i);
    SumRealGatherSplit(f, xs[i := x], i);
    assert Without(xs[i := x], i) == Without(xs, i);
  }

  lemma SumRealGatherSplit<S>(f: S -> seq<real>, xs: seq<S>, i: nat)
    requires i < |xs|
    ensures SumReal(Gather(f, xs)) == SumReal(Gather(f, Without(xs, i))) + SumReal(f(xs[i]))
    ensures |Gather(f, xs)| == |Gather(f, Without(xs, i))| + |f(xs[i])|
  {
    GatherWithout(f, xs, i);
    SumRealKeepsBags(Gather(f, xs), Gather(f, Without(xs, i)) + f(xs[i]));
    SameSize(Gather(f, xs), Gather(f, Without(xs, i)) + f(xs[i]));
    SumRealOfBoth(Gather(f, Without(xs, i)), f(xs[i]));
  }
}
