/** Small shared vocabulary: optional values, sequence helpers, stable sorting and sums. */
module Prelude {
  datatype Option<+T> = None | Some(value: T)

  function Max(a: int, b: int): int { if a >= b then a else b }

  function Min(a: int, b: int): int { if a <= b then a else b }

  function RMax(a: real, b: real): real { if a >= b then a else b }

  function Flatten<T>(ss: seq<seq<T>>): seq<T> {
    if ss == [] then [] else ss[0] + Flatten(ss[1..])
  }

  lemma FlattenSingle<T>(x: seq<T>)
    ensures Flatten([x]) == x
  {
    assert [x][1..] == [] && Flatten<T>([]) == [];
  }

  lemma {:induction false} FlattenAppend<T>(a: seq<seq<T>>, b: seq<seq<T>>)
    ensures Flatten(a + b) == Flatten(a) + Flatten(b)
  {
    if a == [] {
      assert a + b == b;
    } else {
      FlattenAppend(a[1..], b);
      assert (a + b)[1..] == a[1..] + b;
    }
  }

  lemma {:induction false} FlattenContains<T>(ss: seq<seq<T>>, x: T)
    ensures x in Flatten(ss) <==> exists i :: 0 <= i < |ss| && x in ss[i]
  {
    if ss != [] {
      FlattenContains(ss[1..], x);
      if x in Flatten(ss[1..]) {
        var i :| 0 <= i < |ss[1..]| && x in ss[1..][i];
        assert x in ss[i + 1];
      }
      if i :| 0 <= i < |ss| && x in ss[i] {
        if i > 0 { assert x in ss[1..][i - 1]; }
      }
    }
  }

  lemma FirstAndRest<T>(s: seq<T>, i: nat)
    requires i < |s|
    ensures s[i..] == [s[i]] + s[i + 1..]
  {
  }

  lemma JoinMore<T>(a: seq<T>, b: seq<T>, more: seq<T>)
    ensures a + (b + more) == (a + b) + more
  {
  }

  lemma AllOf<T>(s: seq<T>)
    ensures s[..|s|] == s
  {
  }

  /** The elements of `s` that satisfy `p`, in their order. */
  function Filter<T>(s: seq<T>, p: T -> bool): seq<T> {
    if s == [] then []
    else if p(s[0]) then [s[0]] + Filter(s[1..], p)
    else Filter(s[1..], p)
  }

  lemma {:induction false} FilterAppend<T>(a: seq<T>, b: seq<T>, p: T -> bool)
    ensures Filter(a + b, p) == Filter(a, p) + Filter(b, p)
  {
    if a == [] {
      assert a + b == b;
    } else {
      FilterAppend(a[1..], b, p);
      assert (a + b)[1..] == a[1..] + b;
    }
  }

  lemma {:induction false} FilterMember<T>(s: seq<T>, p: T -> bool, x: T)
    ensures x in Filter(s, p) <==> x in s && p(x)
  {
    if s != [] {
      FilterMember(s[1..], p, x);
      assert s == [s[0]] + s[1..];
    }
  }

  function Map<A, B>(f: A -> B, s: seq<A>): (r: seq<B>)
    ensures |r| == |s|
    ensures forall i :: 0 <= i < |s| ==> r[i] == f(s[i])
  {
    if s == [] then [] else [f(s[0])] + Map(f, s[1..])
  }

  lemma MapJoin<A, B>(f: A -> B, a: seq<A>, b: seq<A>)
    ensures Map(f, a + b) == Map(f, a) + Map(f, b)
  {
  }

  lemma FilterOneMore<T>(rows: seq<T>, r: T, p: T -> bool)
    ensures Filter(rows + [r], p) == if p(r) then Filter(rows, p) + [r] else Filter(rows, p)
  {
    FilterAppend(rows, [r], p);
  }

  lemma FilterMapStep<A, B>(rs: seq<A>, i: nat, p: A -> bool, f: A -> B)
    requires i < |rs|
    ensures Map(f, Filter(rs[..i + 1], p)) == Map(f, Filter(rs[..i], p)) + (if p(rs[i]) then [f(rs[i])] else [])
  {
    assert rs[..i + 1] == rs[..i] + [rs[i]];
    FilterAppend(rs[..i], [rs[i]], p);
  }

  lemma FilterStep<A>(rs: seq<A>, i: nat, p: A -> bool)
    requires i < |rs|
    ensures Filter(rs[..i + 1], p) == if p(rs[i]) then Filter(rs[..i], p) + [rs[i]] else Filter(rs[..i], p)
  {
    assert rs[..i + 1] == rs[..i] + [rs[i]];
    FilterAppend(rs[..i], [rs[i]], p);
  }

  /** Earlier parts come before later ones in the flattened sequence. */
  lemma {:induction false} FlattenOrder<T>(ss: seq<seq<T>>, i: nat, j: nat, x: T, y: T) returns (p: nat, q: nat)
    requires i < j < |ss| && x in ss[i] && y in ss[j]
    ensures p < q < |Flatten(ss)| && Flatten(ss)[p] == x && Flatten(ss)[q] == y
  {
    if i > 0 {
      p, q := FlattenOrder(ss[1..], i - 1, j - 1, x, y);
      p, q := p + |ss[0]|, q + |ss[0]|;
    } else {
      p :| 0 <= p < |ss[0]| && ss[0][p] == x;
      assert ss[1..][j - 1] == ss[j];
      FlattenContains(ss[1..], y);
      var k :| 0 <= k < |Flatten(ss[1..])| && Flatten(ss[1..])[k] == y;
      q := |ss[0]| + k;
    }
  }

  /** Each element once, at the place of its first occurrence (`dict.fromkeys`). */
  function Dedupe<T(==)>(s: seq<T>): seq<T> {
    if s == [] then []
    else
      var head := Dedupe(s[..|s| - 1]);
      if s[|s| - 1] in head then head else head + [s[|s| - 1]]
  }

  // ----- Counting ------------------------------------------------------------------------------

  lemma {:induction false} DistinctCount<T>(s: seq<T>)
    requires forall i, j :: 0 <= i < j < |s| ==> s[i] != s[j]
    ensures |set j | j in s| == |s|
  {
    if s != [] {
      var rest := s[..|s| - 1];
      DistinctCount(rest);
      assert (set j | j in s) == (set j | j in rest) + {s[|s| - 1]};
    }
  }

  lemma {:induction false} Subset<T>(a: set<T>, b: set<T>)
    requires a <= b
    ensures |a| <= |b|
    decreases a
  {
    if a != {} {
      var k :| k in a;
      Subset(a - {k}, b - {k});
    }
  }

  // ----- Sums over maps -----------------------------------------------------------------------

  ghost function Total<K(!new), V>(m: map<K, V>, count: V -> nat): nat
    decreases |m|
  {
    if m == map[] then 0
    else
      var k :| k in m;
      assert |m - {k}| < |m|;
      count(m[k]) + Total(m - {k}, count)
  }

  lemma {:induction false} TotalWithout<K(!new), V>(m: map<K, V>, count: V -> nat, k: K)
    requires k in m
    ensures Total(m, count) == count(m[k]) + Total(m - {k}, count)
    decreases |m|
  {
    var j :| j in m && Total(m, count) == count(m[j]) + Total(m - {j}, count);
    if j != k {
      assert |m - {j}| < |m|;
      TotalWithout(m - {j}, count, k);
      TotalWithout(m - {k}, count, j);
      assert m - {j} - {k} == m - {k} - {j};
    }
  }

  lemma TotalUpdate<K(!new), V>(m: map<K, V>, count: V -> nat, k: K, e: V)
    ensures Total(m[k := e], count) == Total(m, count) + count(e) - (if k in m then count(m[k]) else 0)
  {
    TotalWithout(m[k := e], count, k);
    assert m[k := e] - {k} == m - {k};
    if k in m {
      TotalWithout(m, count, k);
    } else {
      assert m - {k} == m;
    }
  }

  lemma {:induction false} TotalZero<K(!new), V>(m: map<K, V>, count: V -> nat)
    requires forall k :: k in m ==> count(m[k]) == 0
    ensures Total(m, count) == 0
    decreases |m|
  {
    if m != map[] {
      var k :| k in m && Total(m, count) == count(m[k]) + Total(m - {k}, count);
      assert |m - {k}| < |m|;
      TotalZero(m - {k}, count);
    }
  }

  /** Fewer keys and pointwise smaller counts make a smaller sum. */
  lemma {:induction false} TotalShrinks<K(!new), V>(m: map<K, V>, m': map<K, V>, count: V -> nat)
    requires m'.Keys <= m.Keys && forall k :: k in m' ==> count(m'[k]) <= count(m[k])
    ensures Total(m', count) <= Total(m, count)
    decreases |m|
  {
    if m != map[] {
      var k :| k in m && Total(m, count) == count(m[k]) + Total(m - {k}, count);
      assert |m - {k}| < |m|;
      TotalShrinks(m - {k}, m' - {k}, count);
      if k in m' { TotalWithout(m', count, k); } else { assert m' - {k} == m'; }
    }
  }
}
