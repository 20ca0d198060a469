/** Greedy cutting of a sequence into maximal runs, and why there is only one such cut. */
module GreedyCut {
  import opened Prelude

  /** The greedy cut of `rest` into bursts, `group` being the open one. */
  function Cut<T>(group: seq<T>, rest: seq<T>, join: (seq<T>, T) -> bool): seq<seq<T>>
    decreases |rest|
  {
    if rest == [] then Closed(group)
    else if join(group, rest[0]) then Cut(group + [rest[0]], rest[1..], join)
    else Closed(group) + Cut([rest[0]], rest[1..], join)
  }

  function Closed<T>(group: seq<T>): seq<seq<T>> {
    if group == [] then [] else [group]
  }

  /** What a burst is, said without the algorithm: every member may join those before it. */
  ghost predicate IsBurst<T>(g: seq<T>, join: (seq<T>, T) -> bool) {
    g != [] && forall k :: 1 <= k < |g| ==> join(g[..k], g[k])
  }

  /** `groups` are contiguous maximal bursts that together are exactly `ordered`. */
  ghost predicate IsBurstPartition<T>(groups: seq<seq<T>>, ordered: seq<T>, join: (seq<T>, T) -> bool) {
    && Flatten(groups) == ordered
    && (forall g :: g in groups ==> IsBurst(g, join))
    && (forall i :: 1 <= i < |groups| && groups[i] != [] ==> !join(groups[i - 1], groups[i][0]))
  }

  lemma LongerBurst<T>(g: seq<T>, c: T, join: (seq<T>, T) -> bool)
    requires IsBurst(g, join) && join(g, c)
    ensures IsBurst(g + [c], join)
  {
    forall k | 1 <= k < |g + [c]|
      ensures join((g + [c])[..k], (g + [c])[k])
    {
      assert (g + [c])[..k] == if k < |g| then g[..k] else g;
    }
  }

  /** Closing a burst in front of a partition whose first message it could not take. */
  lemma PrependBurst<T>(g: seq<T>, tail: seq<seq<T>>, s: seq<T>, join: (seq<T>, T) -> bool)
    requires IsBurst(g, join) && IsBurstPartition(tail, s, join)
    requires s != [] ==> !join(g, s[0])
    ensures IsBurstPartition([g] + tail, g + s, join)
  {
    var all := [g] + tail;
    assert all[1..] == tail;
    forall i | 1 <= i < |all| && all[i] != []
      ensures !join(all[i - 1], all[i][0])
    {
      if i == 1 {
        assert tail[0][0] == Flatten(tail)[0];
      } else {
        assert all[i] == tail[i - 1] && all[i - 1] == tail[i - 2];
      }
    }
  }

  lemma {:induction false} CutPartitions<T>(group: seq<T>, rest: seq<T>, join: (seq<T>, T) -> bool)
    requires if group == [] then rest != [] ==> !join([], rest[0]) else IsBurst(group, join)
    ensures IsBurstPartition(Cut(group, rest, join), group + rest, join)
    decreases |rest|
  {
    if rest == [] {
      CutNothing(group, join);
    } else if join(group, rest[0]) {
      LongerBurst(group, rest[0], join);
      CutPartitions(group + [rest[0]], rest[1..], join);
      assert group + [rest[0]] + rest[1..] == group + rest;
    } else {
      CutPartitions([rest[0]], rest[1..], join);
      assert [rest[0]] + rest[1..] == rest;
      CutFlush(group, rest, Cut([rest[0]], rest[1..], join), join);
    }
  }

  lemma CutNothing<T>(group: seq<T>, join: (seq<T>, T) -> bool)
    requires group == [] || IsBurst(group, join)
    ensures IsBurstPartition(Closed(group), group + [], join)
  {
    assert group + [] == group;
    FlattenSingle(group);
  }

  lemma CutFlush<T>(group: seq<T>, rest: seq<T>, tail: seq<seq<T>>, join: (seq<T>, T) -> bool)
    requires group == [] || IsBurst(group, join)
    requires rest != [] && !join(group, rest[0])
    requires IsBurstPartition(tail, rest, join)
    ensures IsBurstPartition(Closed(group) + tail, group + rest, join)
  {
    if group == [] {
      assert group + rest == rest;
      assert Closed(group) + tail == tail;
    } else {
      PrependBurst(group, tail, rest, join);
    }
  }

  lemma NothingToCut<T>(a: seq<seq<T>>, s: seq<T>, join: (seq<T>, T) -> bool)
    requires IsBurstPartition(a, s, join) && a != []
    ensures s != [] && a[0] != [] && s == a[0] + Flatten(a[1..])
  {
    assert IsBurst(a[0], join);
  }

  /** The burst partition of a chat is unique, so the greedy cut is the only one. */
  lemma {:induction false} BurstPartitionUnique<T>(
    a: seq<seq<T>>, b: seq<seq<T>>, s: seq<T>, join: (seq<T>, T) -> bool)
    requires IsBurstPartition(a, s, join) && IsBurstPartition(b, s, join)
    ensures a == b
    decreases |a|
  {
    if s == [] {
      if a != [] { NothingToCut(a, s, join); }
      if b != [] { NothingToCut(b, s, join); }
    } else {
      FirstBurstNotShorter(a, b, s, join);
      FirstBurstNotShorter(b, a, s, join);
      assert a[0] == s[..|a[0]|] == b[0];
      var rest := s[|a[0]|..];
      TailPartition(a, s, join);
      TailPartition(b, s, join);
      BurstPartitionUnique(a[1..], b[1..], rest, join);
      assert a == [a[0]] + a[1..] && b == [b[0]] + b[1..];
    }
  }

  lemma TailPartition<T>(a: seq<seq<T>>, s: seq<T>, join: (seq<T>, T) -> bool)
    requires a != [] && IsBurstPartition(a, s, join)
    ensures IsBurstPartition(a[1..], s[|a[0]|..], join)
  {
    assert s == a[0] + Flatten(a[1..]);
    forall i | 1 <= i < |a[1..]| && a[1..][i] != []
      ensures !join(a[1..][i - 1], a[1..][i][0])
    {
      assert a[1..][i] == a[i + 1] && a[1..][i - 1] == a[i];
    }
  }

  lemma AfterFirstBurst<T>(a: seq<seq<T>>, s: seq<T>, join: (seq<T>, T) -> bool)
    requires a != [] && IsBurstPartition(a, s, join) && |s| > |a[0]|
    ensures s[..|a[0]|] == a[0] && !join(a[0], s[|a[0]|])
  {
    assert s == a[0] + Flatten(a[1..]);
    assert a[1..] != [] && a[1..][0] == a[1];
    assert IsBurst(a[1], join);
  }

  lemma InsideFirstBurst<T>(b: seq<seq<T>>, s: seq<T>, k: nat, join: (seq<T>, T) -> bool)
    requires b != [] && IsBurstPartition(b, s, join) && 1 <= k < |b[0]|
    ensures k < |s| && join(s[..k], s[k])
  {
    assert s == b[0] + Flatten(b[1..]);
    assert IsBurst(b[0], join);
    assert s[..k] == b[0][..k];
  }

  lemma FirstBurstNotShorter<T>(
    a: seq<seq<T>>, b: seq<seq<T>>, s: seq<T>, join: (seq<T>, T) -> bool)
    requires s != []
    requires IsBurstPartition(a, s, join) && IsBurstPartition(b, s, join)
    ensures a != [] && b != [] && |a[0]| >= |b[0]|
  {
    NothingToCut(a, s, join);
    NothingToCut(b, s, join);
    if |a[0]| < |b[0]| {
      InsideFirstBurst(b, s, |a[0]|, join);
      AfterFirstBurst(a, s, join);
    }
  }

  lemma FlushStep<T>(groups: seq<seq<T>>, group: seq<T>, c: T, rest: seq<T>, join: (seq<T>, T) -> bool)
    requires !join(group, c)
    ensures groups + Cut(group, [c] + rest, join) == (groups + Closed(group)) + Cut([c], rest, join)
  {
    assert ([c] + rest)[1..] == rest;
  }

  lemma AloneStep<T>(groups: seq<seq<T>>, c: T, rest: seq<T>, join: (seq<T>, T) -> bool)
    requires rest != [] ==> !join([c], rest[0]) && !join([], rest[0])
    ensures groups + Cut([c], rest, join) == (groups + [[c]]) + Cut([], rest, join)
  {
    if rest != [] {
      assert Closed([]) + Cut([rest[0]], rest[1..], join) == Cut([rest[0]], rest[1..], join);
    }
  }

  lemma JoinStep<T>(group: seq<T>, c: T, rest: seq<T>, join: (seq<T>, T) -> bool)
    requires join(group, c)
    ensures Cut(group, [c] + rest, join) == Cut(group + [c], rest, join)
  {
    assert ([c] + rest)[1..] == rest;
  }
}
