/** Walking over the rows of a keyed table and rewriting or deleting some of them. */
module Tables {
  /** `rs` lists the rows of the table, each once. */
  ghost predicate Lists<K(!new), V>(rs: seq<V>, m: map<K, V>, key: V -> K) {
    && (forall i :: 0 <= i < |rs| ==> key(rs[i]) in m && m[key(rs[i])] == rs[i])
    && (forall k :: k in m ==> exists i :: 0 <= i < |rs| && key(rs[i]) == k)
    && (forall i, j :: 0 <= i < j < |rs| ==> key(rs[i]) != key(rs[j]))
  }

  /** Writing `f` of the first `n` listed rows that satisfy `p` back, one after the other. */
  function Rewritten<K, V>(before: map<K, V>, rs: seq<V>, n: nat, key: V -> K, p: V -> bool, f: V -> V): map<K, V>
    requires n <= |rs|
  {
    if n == 0 then before
    else
      var m := Rewritten(before, rs, n - 1, key, p, f);
      if p(rs[n - 1]) then m[key(rs[n - 1]) := f(rs[n - 1])] else m
  }

  lemma {:induction false} RewrittenAt<K(!new), V>(before: map<K, V>, rs: seq<V>, n: nat, key: V -> K, p: V -> bool,
      f: V -> V)
    requires Lists(rs, before, key) && n <= |rs|
    ensures var m := Rewritten(before, rs, n, key, p, f);
      m.Keys == before.Keys
      && forall j :: 0 <= j < |rs| ==> m[key(rs[j])] == if j < n && p(rs[j]) then f(rs[j]) else rs[j]
  {
    if n > 0 { RewrittenAt(before, rs, n - 1, key, p, f); }
  }

  lemma RewrittenAll<K(!new), V>(before: map<K, V>, rs: seq<V>, key: V -> K, p: V -> bool, f: V -> V)
    requires Lists(rs, before, key)
    ensures Rewritten(before, rs, |rs|, key, p, f) == map k | k in before ::
      if p(before[k]) then f(before[k]) else before[k]
  {
    RewrittenAt(before, rs, |rs|, key, p, f);
    forall k | k in before
      ensures Rewritten(before, rs, |rs|, key, p, f)[k] == if p(before[k]) then f(before[k]) else before[k]
    {
      var j :| 0 <= j < |rs| && key(rs[j]) == k;
    }
  }

  /** Deleting the first `n` listed rows that satisfy `p`, one after the other. */
  function Deleted<K, V>(before: map<K, V>, rs: seq<V>, n: nat, key: V -> K, p: V -> bool): map<K, V>
    requires n <= |rs|
  {
    if n == 0 then before
    else
      var m := Deleted(before, rs, n - 1, key, p);
      if p(rs[n - 1]) then m - {key(rs[n - 1])} else m
  }

  lemma {:induction false} DeletedAt<K(!new), V>(before: map<K, V>, rs: seq<V>, n: nat, key: V -> K, p: V -> bool)
    requires Lists(rs, before, key) && n <= |rs|
    ensures var m := Deleted(before, rs, n, key, p);
      (forall k :: k in m ==> k in before && m[k] == before[k])
      && forall j :: 0 <= j < |rs| ==> (key(rs[j]) in m <==> j >= n || !p(rs[j]))
  {
    if n > 0 { DeletedAt(before, rs, n - 1, key, p); }
  }

  lemma DeletedAll<K(!new), V>(before: map<K, V>, rs: seq<V>, key: V -> K, p: V -> bool)
    requires Lists(rs, before, key)
    ensures Deleted(before, rs, |rs|, key, p) == map k | k in before && !p(before[k]) :: before[k]
  {
    DeletedAt(before, rs, |rs|, key, p);
    forall k | k in before ensures k in Deleted(before, rs, |rs|, key, p) <==> !p(before[k]) {
      var j :| 0 <= j < |rs| && key(rs[j]) == k;
    }
  }

  method ListRows<K(==, !new), V>(m: map<K, V>, key: V -> K) returns (rs: seq<V>)
    requires forall k :: k in m ==> key(m[k]) == k
    ensures Lists(rs, m, key)
  {
    rs := [];
    var todo := m.Keys;
    while todo != {}
      invariant todo <= m.Keys
      invariant forall i :: 0 <= i < |rs| ==> key(rs[i]) in m && key(rs[i]) !in todo && m[key(rs[i])] == rs[i]
      invariant forall k :: k in m && k !in todo ==> exists i :: 0 <= i < |rs| && key(rs[i]) == k
      invariant forall i, j :: 0 <= i < j < |rs| ==> key(rs[i]) != key(rs[j])
      decreases |todo|
    {
      var k :| k in todo;
      ghost var listed := rs;
      rs := rs + [m[k]];
      todo := todo - {k};
      forall l | l in m && l !in todo ensures exists i :: 0 <= i < |rs| && key(rs[i]) == l {
        if l == k {
          assert key(rs[|rs| - 1]) == k;
        } else {
          var i :| 0 <= i < |listed| && key(listed[i]) == l;
          assert rs[i] == listed[i];
        }
      }
    }
  }
}
