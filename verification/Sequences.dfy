/** Facts about sequences, orders and optional values that the other modules share. */
module Sequences {

  datatype Option<+T> = None | Some(value: T) {
    function GetOr(default: T): T {
      match this
      case Some(v) => v
      case None => default
    }
  }

  datatype Result<+T, +E> = Ok(value: T) | Err(error: E)

  ghost predicate NoDup<T(!new)>(s: seq<T>) {
    forall i, j :: 0 <= i < j < |s| ==> s[i] != s[j]
  }

  /** Prefixes of a prefix: the step every left-to-right loop takes. */
  lemma TakeStep<T>(s: seq<T>, i: nat)
    requires i < |s|
    ensures s[..i + 1][..i] == s[..i]
    ensures s[..i + 1] == s[..i] + [s[i]]
  {
  }

  /** What holds at 0, and at each number up to `n` if at the one before, holds at `n`. Proofs that use it need not look
      inside what they prove. */
  lemma {:induction false} Inductively(P: nat -> bool, n: nat)
    requires P(0) && forall k: nat, m: nat {:trigger P(k), P(m)} | k < m <= n && m == k + 1 && P(k) :: P(m)
    ensures P(n)
  {
    if n > 0 { Inductively(P, n - 1); }
  }

  /** The last position that holds true. */
  function LastTrue(s: seq<bool>): (k: Option<nat>)
    ensures k.Some? ==> k.value < |s| && s[k.value] && forall i | k.value < i < |s| :: !s[i]
    ensures k.None? ==> forall i | 0 <= i < |s| :: !s[i]
  {
    if s == [] then None else if s[|s| - 1] then Some(|s| - 1) else LastTrue(s[..|s| - 1])
  }

  lemma LastTrueStep(s: seq<bool>, n: nat)
    requires n < |s|
    ensures LastTrue(s[..n + 1]) == if s[n] then Some(n) else LastTrue(s[..n])
  {
    TakeStep(s, n);
  }

  /** The first position of `x`. */
  function IndexOf<T(==)>(s: seq<T>, x: T): (i: nat)
    requires x in s
    ensures i < |s| && s[i] == x
    ensures forall j | 0 <= j < i :: s[j] != x
  {
    if s[0] == x then 0 else 1 + IndexOf(s[1..], x)
  }

  // ---- Strings in code-point order, as Python compares them ----

  predicate StrLess(a: string, b: string)
  {
    if b == "" then false
    else if a == "" then true
    else a[0] < b[0] || (a[0] == b[0] && StrLess(a[1..], b[1..]))
  }

  /** In code-point order `a` comes before `b`: it is a proper beginning of it, or at the first difference it has the
      smaller character. */
  ghost predicate Precedes(a: string, b: string) {
    a < b || exists k :: DiffersAt(a, b, k) && a[k] < b[k]
  }

  /** Position `k` is the first at which the two differ. */
  ghost predicate DiffersAt(a: string, b: string, k: int) {
    0 <= k < |a| && k < |b| && a[k] != b[k] && forall j | 0 <= j < k :: a[j] == b[j]
  }

  lemma {:induction false} PrecedesIff(a: string, b: string)
    ensures StrLess(a, b) <==> Precedes(a, b)
  {
    if a != "" && b != "" {
      PrecedesIff(a[1..], b[1..]);
      if a[0] == b[0] { PrecedesTail(a, b); } else { assert DiffersAt(a, b, 0); }
    }
  }

  lemma PrecedesTail(a: string, b: string)
    requires a != "" && b != "" && a[0] == b[0]
    ensures Precedes(a, b) <==> Precedes(a[1..], b[1..])
  {
    assert a == [a[0]] + a[1..] && b == [b[0]] + b[1..];
    if k :| DiffersAt(a, b, k) && a[k] < b[k] { assert DiffersAt(a[1..], b[1..], k - 1); }
    if k :| DiffersAt(a[1..], b[1..], k) && a[1..][k] < b[1..][k] {
      forall j | 0 <= j < k + 1 ensures a[j] == b[j] {
        if j > 0 { assert a[j] == a[1..][j - 1] && b[j] == b[1..][j - 1]; }
      }
      assert DiffersAt(a, b, k + 1);
    }
  }

  lemma {:induction false} StrLessIrreflexive(a: string)
    ensures !StrLess(a, a)
  {
    if a != "" { StrLessIrreflexive(a[1..]); }
  }

  lemma {:induction false} StrLessTransitive(a: string, b: string, c: string)
    requires StrLess(a, b) && StrLess(b, c)
    ensures StrLess(a, c)
  {
    if a != "" && a[0] == b[0] == c[0] { StrLessTransitive(a[1..], b[1..], c[1..]); }
  }

  lemma {:induction false} StrLessTotal(a: string, b: string)
    ensures a == b || StrLess(a, b) || StrLess(b, a)
  {
    if a != "" && b != "" && a[0] == b[0] {
      StrLessTotal(a[1..], b[1..]);
      assert a == [a[0]] + a[1..] && b == [b[0]] + b[1..];
    }
  }

  // ---- Sorting by a strict order, stably ----

  ghost predicate StrictOrder<T(!new)>(less: (T, T) -> bool) {
    && (forall x :: !less(x, x))
    && (forall x, y, z :: less(x, y) && less(y, z) ==> less(x, z))
  }

  /** Elements that neither precede the other must be equal. */
  ghost predicate TotalOn<T(!new)>(less: (T, T) -> bool, s: seq<T>) {
    forall x, y :: x in s && y in s ==> x == y || less(x, y) || less(y, x)
  }

  ghost predicate SortedBy<T(!new)>(less: (T, T) -> bool, s: seq<T>) {
    forall i, j :: 0 <= i < j < |s| ==> !less(s[j], s[i])
  }

  /** Insert `x` after every element that is not greater: the stable place. */
  function Insert<T>(less: (T, T) -> bool, x: T, s: seq<T>): (r: seq<T>)
    ensures multiset(r) == multiset(s) + multiset{x}
    ensures |r| == |s| + 1
  {
    if s == [] then [x]
    else if less(x, s[|s| - 1]) then
      assert s == s[..|s| - 1] + [s[|s| - 1]];
      Insert(less, x, s[..|s| - 1]) + [s[|s| - 1]]
    else s + [x]
  }

  function Sort<T>(less: (T, T) -> bool, s: seq<T>): (r: seq<T>)
    ensures multiset(r) == multiset(s)
    ensures |r| == |s|
  {
    if s == [] then []
    else
      assert s == s[..|s| - 1] + [s[|s| - 1]];
      Insert(less, s[|s| - 1], Sort(less, s[..|s| - 1]))
  }

  lemma SameElements<T>(a: seq<T>, b: seq<T>)
    requires multiset(a) == multiset(b)
    ensures forall x :: x in a <==> x in b
  {
    forall x ensures x in a <==> x in b {
      assert x in multiset(a) <==> x in a;
      assert x in multiset(b) <==> x in b;
    }
  }

  /** A newcomer smaller than `last`, and all that comes before `last`, are not greater than it. */
  lemma InsertBelow<T(!new)>(less: (T, T) -> bool, x: T, front: seq<T>, last: T)
    requires StrictOrder(less) && SortedBy(less, front + [last]) && less(x, last)
    ensures forall i | 0 <= i < |Insert(less, x, front)| :: !less(last, Insert(less, x, front)[i])
  {
    var r := Insert(less, x, front);
    forall i | 0 <= i < |r| ensures !less(last, r[i]) {
      var y := r[i];
      assert y in multiset(r);
      if y != x {
        assert y in multiset(front);
        var k :| 0 <= k < |front| && front[k] == y;
        assert (front + [last])[k] == y && (front + [last])[|front|] == last;
      }
    }
  }

  lemma AppendSorted<T(!new)>(less: (T, T) -> bool, s: seq<T>, last: T)
    requires SortedBy(less, s) && forall i | 0 <= i < |s| :: !less(last, s[i])
    ensures SortedBy(less, s + [last])
  {
  }

  lemma NotBeforeSorted<T(!new)>(less: (T, T) -> bool, x: T, s: seq<T>)
    requires StrictOrder(less) && SortedBy(less, s) && TotalOn(less, s + [x]) && s != [] && !less(x, s[|s| - 1])
    ensures forall y | y in s :: !less(x, y)
  {
    var last := s[|s| - 1];
    assert x in s + [x] && last in s + [x];
    assert x == last || less(last, x);
    forall y | y in s ensures !less(x, y) { LastIsMaximal(less, s, y); }
  }

  lemma {:induction false} InsertSorted<T(!new)>(less: (T, T) -> bool, x: T, s: seq<T>)
    requires StrictOrder(less) && SortedBy(less, s) && TotalOn(less, s + [x])
    ensures SortedBy(less, Insert(less, x, s))
  {
    if s == [] {
    } else if less(x, s[|s| - 1]) {
      var front, last := s[..|s| - 1], s[|s| - 1];
      assert TotalOn(less, front + [x]) by { assert forall y :: y in front + [x] ==> y in s + [x]; }
      InsertSorted(less, x, front);
      assert s == front + [last];
      InsertBelow(less, x, front, last);
      AppendSorted(less, Insert(less, x, front), last);
    } else {
      NotBeforeSorted(less, x, s);
      AppendSorted(less, s, x);
    }
  }

  /** Sorting yields an ordered rearrangement of its input. */
  lemma {:induction false} SortSorted<T(!new)>(less: (T, T) -> bool, s: seq<T>)
    requires StrictOrder(less) && TotalOn(less, s)
    ensures SortedBy(less, Sort(less, s))
  {
    if s != [] {
      var front, x := s[..|s| - 1], s[|s| - 1];
      assert forall y :: y in front ==> y in s;
      SortSorted(less, front);
      var t := Sort(less, front);
      SameElements(t, front);
      assert forall y :: y in t + [x] ==> y in s;
      InsertSorted(less, x, t);
    }
  }

  lemma LastIsMaximal<T(!new)>(less: (T, T) -> bool, s: seq<T>, x: T)
    requires SortedBy(less, s) && StrictOrder(less) && x in s
    ensures !less(s[|s| - 1], x)
  {
    var i :| 0 <= i < |s| && s[i] == x;
  }

  lemma TotalOnPart<T(!new)>(less: (T, T) -> bool, s: seq<T>, part: seq<T>)
    requires TotalOn(less, s) && multiset(part) <= multiset(s)
    ensures TotalOn(less, part)
  {
    forall x | x in part ensures x in s { assert x in multiset(part); assert x in multiset(s); }
  }

  lemma LastAgrees<T(!new)>(less: (T, T) -> bool, a: seq<T>, b: seq<T>)
    requires StrictOrder(less) && TotalOn(less, a)
    requires SortedBy(less, a) && SortedBy(less, b)
    requires multiset(a) == multiset(b) && a != []
    ensures b != [] && a[|a| - 1] == b[|b| - 1]
  {
    assert a[0] in multiset(b);
    var x, y := a[|a| - 1], b[|b| - 1];
    assert x in multiset(b) && y in multiset(a);
    LastIsMaximal(less, a, y);
    LastIsMaximal(less, b, x);
  }

  lemma DropLast<T>(a: seq<T>)
    requires a != []
    ensures multiset(a[..|a| - 1]) == multiset(a) - multiset{a[|a| - 1]}
    ensures a == a[..|a| - 1] + [a[|a| - 1]]
  {
    assert a == a[..|a| - 1] + [a[|a| - 1]];
  }

  /** A strict total order leaves one sorted arrangement of a multiset. */
  lemma {:induction false} SortedUnique<T(!new)>(less: (T, T) -> bool, a: seq<T>, b: seq<T>)
    requires StrictOrder(less) && TotalOn(less, a)
    requires SortedBy(less, a) && SortedBy(less, b)
    requires multiset(a) == multiset(b)
    ensures a == b
  {
    if a == [] {
      assert |multiset(b)| == |b|;
    } else {
      LastAgrees(less, a, b);
      DropLast(a);
      DropLast(b);
      TotalOnPart(less, a, a[..|a| - 1]);
      SortedUnique(less, a[..|a| - 1], b[..|b| - 1]);
    }
  }

  /** Whatever ordered rearrangement of `s` there is, sorting yields it. */
  lemma SortIs<T(!new)>(less: (T, T) -> bool, s: seq<T>, t: seq<T>)
    requires StrictOrder(less) && TotalOn(less, s)
    requires SortedBy(less, t) && multiset(t) == multiset(s)
    ensures Sort(less, s) == t
  {
    SortSorted(less, s);
    SameElements(Sort(less, s), s);
    SortedUnique(less, Sort(less, s), t);
  }

  lemma SortPermutation<T(!new)>(less: (T, T) -> bool, a: seq<T>, b: seq<T>)
    requires StrictOrder(less) && TotalOn(less, a)
    requires multiset(a) == multiset(b)
    ensures Sort(less, a) == Sort(less, b)
  {
    SameElements(a, b);
    SortSorted(less, b);
    SortIs(less, a, Sort(less, b));
  }

  lemma StrLessIsStrictOrder()
    ensures StrictOrder(StrLess)
  {
    forall x: string ensures !StrLess(x, x) { StrLessIrreflexive(x); }
    forall x: string, y: string, z: string | StrLess(x, y) && StrLess(y, z) ensures StrLess(x, z) {
      StrLessTransitive(x, y, z);
    }
  }

  lemma StrTotalOn(s: seq<string>)
    ensures TotalOn(StrLess, s)
  {
    forall x, y | x in s && y in s ensures x == y || StrLess(x, y) || StrLess(y, x) { StrLessTotal(x, y); }
  }

  lemma StrSortIs(s: seq<string>, t: seq<string>)
    requires SortedBy(StrLess, t) && multiset(t) == multiset(s)
    ensures Sort(StrLess, s) == t
  {
    StrLessIsStrictOrder();
    StrTotalOn(s);
    SortIs(StrLess, s, t);
  }

  lemma StrSortSorted(s: seq<string>)
    ensures SortedBy(StrLess, Sort(StrLess, s))
    ensures forall x :: x in Sort(StrLess, s) <==> x in s
  {
    StrLessIsStrictOrder();
    StrTotalOn(s);
    SortSorted(StrLess, s);
    SameElements(Sort(StrLess, s), s);
  }

  // ---- Multisets of images ----

  function Without<T>(s: seq<T>, j: nat): (r: seq<T>)
    requires j < |s|
    ensures |r| == |s| - 1
    ensures forall m | 0 <= m < |r| :: r[m] == s[if m < j then m else m + 1]
    ensures multiset(s) == multiset(r) + multiset{s[j]}
  {
    assert s == s[..j] + [s[j]] + s[j + 1..];
    s[..j] + s[j + 1..]
  }

  lemma SameHeadRemoved<T>(ss: seq<T>, ts: seq<T>, j: nat)
    requires ss != [] && j < |ts| && ts[j] == ss[0] && multiset(ss) == multiset(ts)
    ensures multiset(Without(ss, 0)) == multiset(Without(ts, j))
  {
    assert multiset(Without(ss, 0)) == multiset(ss) - multiset{ss[0]};
    assert multiset(Without(ts, j)) == multiset(ts) - multiset{ss[0]};
  }

  /** If equal tags always carry equal values, equal multisets of tags carry equal multisets of values. */
  lemma {:induction false} Transport<S, K>(ss: seq<S>, ks: seq<K>, ts: seq<S>, ls: seq<K>)
    requires |ss| == |ks| && |ts| == |ls| && multiset(ss) == multiset(ts)
    requires forall i, j | 0 <= i < |ss| && 0 <= j < |ts| && ss[i] == ts[j] :: ks[i] == ls[j]
    ensures multiset(ks) == multiset(ls)
  {
    assert |multiset(ss)| == |ss| && |multiset(ts)| == |ts|;
    if ss != [] {
      assert ss[0] in multiset(ts);
      var j :| 0 <= j < |ts| && ts[j] == ss[0];
      SameHeadRemoved(ss, ts, j);
      Transport(Without(ss, 0), Without(ks, 0), Without(ts, j), Without(ls, j));
    }
  }
}
