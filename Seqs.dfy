/** Generic sequence helpers: flattening and Python's slicing into fixed-size batches. */
module Seqs {

  function Concat<T>(ss: seq<seq<T>>): seq<T> {
    if ss == [] then [] else ss[0] + Concat(ss[1..])
  }

  lemma {:induction false} ConcatAppend<T>(ss: seq<seq<T>>, s: seq<T>)
    ensures Concat(ss + [s]) == Concat(ss) + s
  {
    if ss != [] {
      assert (ss + [s])[1..] == ss[1..] + [s];
      ConcatAppend(ss[1..], s);
    } else {
      assert [s][1..] == [];
    }
  }

  /** Slicing a concatenation inside its left operand. */
  lemma AppendSlices<T>(a: seq<T>, b: seq<T>, k: nat)
    requires k <= |a|
    ensures (a + b)[..k] == a[..k]
    ensures (a + b)[k..] == a[k..] + b
  {
  }

  /** Dropping the head of a concatenation whose left operand is non-empty. */
  lemma AppendTail<T>(a: seq<T>, b: seq<T>)
    requires a != []
    ensures (a + b)[0] == a[0]
    ensures (a + b)[1..] == a[1..] + b
  {
  }

  lemma AppendAssoc<T>(a: seq<T>, b: seq<T>, c: seq<T>)
    ensures a + (b + c) == a + b + c
  {
  }

  /** `[s[i:i + n] for i in range(0, len(s), n)]`. */
  function Batches<T>(s: seq<T>, n: nat): seq<seq<T>>
    requires n >= 1
    decreases |s|
  {
    if |s| == 0 then [] else if |s| <= n then [s] else [s[..n]] + Batches(s[n..], n)
  }

  /** The batches put back together give `s`. */
  lemma {:induction false} BatchesConcat<T>(s: seq<T>, n: nat)
    requires n >= 1
    ensures Concat(Batches(s, n)) == s
    decreases |s|
  {
    if |s| > n {
      BatchesConcat(s[n..], n);
      assert Batches(s, n)[1..] == Batches(s[n..], n);
      assert s == s[..n] + s[n..];
    } else if |s| > 0 {
      assert [s][1..] == [];
    }
  }

  /** There are ceil(|s| / n) batches: the fewest batches of `n` that hold all of `s`. */
  lemma {:induction false} BatchesCount<T>(s: seq<T>, n: nat)
    requires n >= 1
    ensures (|Batches(s, n)| - 1) * n < |s| <= |Batches(s, n)| * n
    ensures s == [] <==> Batches(s, n) == []
    decreases |s|
  {
    if |s| > n {
      var k := |Batches(s[n..], n)|;
      BatchesCount(s[n..], n);
      assert |Batches(s, n)| == k + 1;
      assert (k + 1) * n == k * n + n;
      assert k * n == (k - 1) * n + n;
    }
  }

  /** Each batch holds between 1 and `n` items, and every batch but the last holds exactly `n`. */
  lemma {:induction false} BatchesSizes<T>(s: seq<T>, n: nat)
    requires n >= 1
    ensures forall i :: 0 <= i < |Batches(s, n)| ==> 1 <= |Batches(s, n)[i]| <= n
    ensures forall i :: 0 <= i < |Batches(s, n)| - 1 ==> |Batches(s, n)[i]| == n
    decreases |s|
  {
    if |s| > n {
      BatchesSizes(s[n..], n);
      var b := Batches(s, n);
      assert b[1..] == Batches(s[n..], n);
      forall i | 1 <= i < |b| ensures b[i] == Batches(s[n..], n)[i - 1] { }
    }
  }

  lemma BatchesTail<T>(s: seq<T>, n: nat, k: nat)
    requires n >= 1 && |s| > n && 0 < k < |Batches(s, n)|
    ensures Batches(s, n)[k] == Batches(s[n..], n)[k - 1]
  {
  }

  lemma ShiftedSlice<T>(s: seq<T>, n: nat, a: nat, b: nat)
    requires n <= |s| && a <= b <= |s| - n
    ensures s[n..][a..b] == s[a + n..b + n]
  {
  }

  lemma MulStep(k: nat, n: nat)
    requires k >= 1
    ensures k * n == (k - 1) * n + n && (k + 1) * n == k * n + n
  {
  }

  /** Batch `k` is the slice `s[k * n : min(|s|, (k + 1) * n)]`. */
  lemma {:induction false} BatchAt<T>(s: seq<T>, n: nat, k: nat)
    requires n >= 1 && k < |Batches(s, n)|
    ensures k * n < |s|
    ensures Batches(s, n)[k] == s[k * n..if (k + 1) * n < |s| then (k + 1) * n else |s|]
    decreases |s|
  {
    if |s| > n && k > 0 {
      BatchesTail(s, n, k);
      BatchAt(s[n..], n, k - 1);
      MulStep(k, n);
      var e := if k * n < |s[n..]| then k * n else |s[n..]|;
      ShiftedSlice(s, n, (k - 1) * n, e);
    }
  }

  /** `[x for x in s if p(x)]`. */
  function Filter<T>(s: seq<T>, p: T -> bool): (r: seq<T>)
    ensures |r| <= |s|
    ensures forall i :: 0 <= i < |r| ==> r[i] in s && p(r[i])
    ensures forall i :: 0 <= i < |s| && p(s[i]) ==> s[i] in r
    decreases |s|
  {
    if s == [] then []
    else
      var init := s[..|s| - 1];
      assert forall i :: 0 <= i < |init| ==> init[i] == s[i];
      Filter(init, p) + if p(s[|s| - 1]) then [s[|s| - 1]] else []
  }

  /** Filtering a list whose elements all pass leaves it unchanged. */
  lemma {:induction false} FilterAll<T>(s: seq<T>, p: T -> bool)
    requires forall i :: 0 <= i < |s| ==> p(s[i])
    ensures Filter(s, p) == s
    decreases |s|
  {
    if s != [] {
      FilterAll(s[..|s| - 1], p);
    }
  }

  lemma FilterAppend<T>(s: seq<T>, x: T, p: T -> bool)
    ensures Filter(s + [x], p) == Filter(s, p) + if p(x) then [x] else []
  {
    assert (s + [x])[..|s + [x]| - 1] == s;
  }

  lemma {:induction false} FilterConcat<T>(a: seq<T>, b: seq<T>, p: T -> bool)
    ensures Filter(a + b, p) == Filter(a, p) + Filter(b, p)
    decreases |b|
  {
    if b != [] {
      var init := b[..|b| - 1];
      var last := b[|b| - 1];
      assert b == init + [last];
      assert a + b == (a + init) + [last];
      FilterConcat(a, init, p);
      FilterAppend(a + init, last, p);
      FilterAppend(init, last, p);
    } else {
      assert a + b == a;
    }
  }

  /** Every element either passes the filter or fails it. */
  lemma {:induction false} FilterSplit<T>(s: seq<T>, p: T -> bool)
    ensures |Filter(s, p)| + |Filter(s, x => !p(x))| == |s|
    decreases |s|
  {
    if s != [] {
      FilterSplit(s[..|s| - 1], p);
    }
  }

  /** The index of the first element of `s` that satisfies `p`, or `|s|` when none does:
      where a loop that raises on such an element stops. */
  function FirstWhere<T>(s: seq<T>, p: T -> bool): (n: nat)
    ensures n <= |s|
    ensures forall j :: 0 <= j < n ==> !p(s[j])
    ensures n < |s| ==> p(s[n])
    decreases |s|
  {
    if s == [] || p(s[0]) then 0
    else
      var rest := s[1..];
      assert forall j :: 0 <= j < |rest| ==> rest[j] == s[j + 1];
      1 + FirstWhere(rest, p)
  }

  /** A loop that reached `i` without meeting `p` meets it at `i` exactly when `i` is the
      first index that satisfies `p`. */
  lemma FirstWhereStep<T>(s: seq<T>, i: nat, p: T -> bool)
    requires i < |s| && i <= FirstWhere(s, p)
    ensures p(s[i]) ==> FirstWhere(s, p) == i
    ensures !p(s[i]) ==> i + 1 <= FirstWhere(s, p)
  {
  }

  /** `s[:n]` with Python's reading of a negative bound (counted from the end). */
  function PyTake<T>(s: seq<T>, n: int): (r: seq<T>)
    ensures |r| <= |s| && r == s[..|r|]
    ensures n >= 0 ==> |r| <= n && (|s| <= n ==> r == s)
  {
    if n >= |s| then s
    else if n >= 0 then s[..n]
    else if |s| + n > 0 then s[..|s| + n]
    else []
  }

  /** The first `limit` elements, as a query's `.limit(limit)` returns them. */
  function Limit<T>(s: seq<T>, limit: nat): (r: seq<T>)
    ensures |r| <= limit && |r| <= |s|
    ensures r == s[..|r|]
    ensures |s| <= limit ==> r == s
  {
    if limit < |s| then s[..limit] else s
  }

  /** `[f(x) for x in s]`. */
  function Map<A, B>(s: seq<A>, f: A -> B): (r: seq<B>)
    ensures |r| == |s| && forall i :: 0 <= i < |s| ==> r[i] == f(s[i])
    decreases |s|
  {
    if s == [] then [] else Map(s[..|s| - 1], f) + [f(s[|s| - 1])]
  }

  /** Mapping one more element of a prefix appends its image. */
  lemma MapPrefix<A, B>(s: seq<A>, k: nat, f: A -> B)
    requires k < |s|
    ensures Map(s[..k + 1], f) == Map(s[..k], f) + [f(s[k])]
  {
    assert s[..k + 1][..k] == s[..k];
  }
}
