/** What merging alias spellings and rolling the day leave of each chat, field by field. */
module LedgerMerge {
  import opened Prelude
  import opened Peers
  import opened Candidates
  import opened Ledger

  type Chats = map<string, ChatEntry>

  /** Entry `i` of the listing is a spelling of chat `key`. */
  predicate IsAlias(order: seq<string>, key: string, i: nat) { i < |order| && KeyOf(order[i]) == key }

  /** The largest of the values that the aliases have, and none if none has one. */
  ghost predicate LargestOf(r: Option<int>, values: ChatEntry -> Option<int>, chats: Chats, order: seq<string>,
      key: string)
    requires forall k :: k in order ==> k in chats
  {
    && (forall i: nat :: IsAlias(order, key, i) && values(chats[order[i]]).Some? ==>
          r.Some? && r.value >= values(chats[order[i]]).value)
    && (r.Some? ==> exists i: nat :: IsAlias(order, key, i) && values(chats[order[i]]) == r)
  }

  /** What the merge of two entries does to one of their values. */
  predicate MergesLargest(values: ChatEntry -> Option<int>, a: ChatEntry, b: ChatEntry) {
    var x, y, r := values(a), values(b), values(MergeChats(a, b));
    if x.None? then r == y else if y.None? then r == x else r == Some(if x.value >= y.value then x.value else y.value)
  }

  lemma AliasOfMore(order: seq<string>, k: string, key: string, i: nat)
    ensures IsAlias(order + [k], key, i) <==> IsAlias(order, key, i) || (i == |order| && KeyOf(k) == key)
    ensures i < |order| ==> (order + [k])[i] == order[i]
  {
  }

  /** `r'` is the larger of `r` and `y`, as far as they are there. */
  predicate TakesIn(r: Option<int>, r': Option<int>, y: Option<int>) {
    if y.None? then r' == r
    else if r.None? then r' == y
    else r' == Some(if r.value >= y.value then r.value else y.value)
  }

  /** One more entry keeps a merged value the largest. */
  lemma LargestStep(r: Option<int>, r': Option<int>, values: ChatEntry -> Option<int>, chats: Chats, order: seq<string>,
      k: string, key: string)
    requires k in chats && (forall x :: x in order ==> x in chats) && LargestOf(r, values, chats, order, key)
    requires TakesIn(r, r', if KeyOf(k) == key then values(chats[k]) else None)
    ensures LargestOf(r', values, chats, order + [k], key)
  {
    var more := order + [k];
    forall i: nat | IsAlias(more, key, i) && values(chats[more[i]]).Some?
      ensures r'.Some? && r'.value >= values(chats[more[i]]).value
    {
      AliasOfMore(order, k, key, i);
    }
    if r'.Some? {
      if r' == r {
        var i: nat :| IsAlias(order, key, i) && values(chats[order[i]]) == r;
        AliasOfMore(order, k, key, i);
        assert IsAlias(more, key, i) && values(chats[more[i]]) == r';
      } else {
        AliasOfMore(order, k, key, |order|);
        assert IsAlias(more, key, |order|) && values(chats[more[|order|]]) == r';
      }
    }
  }

  /** The value of the chat in the merged ledger; none where there is no entry. */
  function ValueIn(merged: Chats, values: ChatEntry -> Option<int>, key: string): Option<int> {
    if key in merged then values(merged[key]) else None
  }

  /** A chat is in the merged ledger exactly if some spelling of it was listed. */
  lemma {:induction false} MergedKeys(chats: Chats, order: seq<string>, key: string)
    requires forall k :: k in order ==> k in chats
    ensures key in Normalized(chats, order) <==> exists i: nat :: IsAlias(order, key, i)
  {
    if order != [] {
      var rest, k := order[..|order| - 1], order[|order| - 1];
      assert order == rest + [k];
      MergedKeys(chats, rest, key);
      forall i: nat ensures IsAlias(order, key, i) <==> IsAlias(rest, key, i) || (i == |rest| && KeyOf(k) == key) {
        AliasOfMore(rest, k, key, i);
      }
      if KeyOf(k) == key { assert IsAlias(order, key, |rest|); }
    }
  }

  lemma AbsorbedValue(before: Chats, at: string, e: ChatEntry, values: ChatEntry -> Option<int>, key: string)
    requires at in before ==> MergesLargest(values, before[at], e)
    ensures TakesIn(ValueIn(before, values, key), ValueIn(Absorb(before, at, e), values, key),
                    if at == key then values(e) else None)
  {
  }

  lemma {:induction false} MergedIsLargest(chats: Chats, order: seq<string>, key: string,
      values: ChatEntry -> Option<int>)
    requires forall k :: k in order ==> k in chats
    requires forall a, b :: MergesLargest(values, a, b)
    ensures LargestOf(ValueIn(Normalized(chats, order), values, key), values, chats, order, key)
  {
    if order != [] {
      var rest, k := order[..|order| - 1], order[|order| - 1];
      MergedIsLargest(chats, rest, key, values);
      var before := Normalized(chats, rest);
      AbsorbedValue(before, KeyOf(k), chats[k], values, key);
      LargestStep(ValueIn(before, values, key), ValueIn(Normalized(chats, order), values, key), values, chats, rest, k,
                  key);
      assert order == rest + [k];
    }
  }

  // ----- The fields that take the largest value --------------------------------------------------

  function Cursor(): ChatEntry -> Option<int> { (e: ChatEntry) => e.cursor }

  function RetryAt(): ChatEntry -> Option<int> { (e: ChatEntry) => e.retryAt }

  function Retries(): ChatEntry -> Option<int> { (e: ChatEntry) => Some(e.retries) }

  function LaneCursor(t: Topic): ChatEntry -> Option<int> {
    (e: ChatEntry) => if t in e.topics then e.topics[t].cursor else None
  }

  function LaneRetryAt(t: Topic): ChatEntry -> Option<int> {
    (e: ChatEntry) => if t in e.topics then e.topics[t].retryAt else None
  }

  function LaneFailures(t: Topic): ChatEntry -> Option<int> {
    (e: ChatEntry) => if t in e.topics then Some(e.topics[t].failures) else None
  }

  /** The value of the merged entry is the largest of its aliases'. */
  ghost predicate Gathers(l: Led, order: seq<string>, key: string, values: ChatEntry -> Option<int>)
    requires forall k :: k in order ==> k in l.chats
  {
    LargestOf(ValueIn(Normalized(l.chats, order), values, key), values, l.chats, order, key)
  }

  lemma ListedKeys(chats: Chats, order: seq<string>, key: string)
    requires Lists(order, chats)
    ensures key in Normalized(chats, order) <==> exists k :: k in chats && KeyOf(k) == key
  {
    MergedKeys(chats, order, key);
    if k :| k in chats && KeyOf(k) == key {
      var i: nat :| i < |order| && order[i] == k;
      assert IsAlias(order, key, i);
    }
  }

  /**
   * Merging forgets no progress and invents none: the entry of a chat has the furthest cursor, the
   * latest deadline and the most failures that any spelling of it had.
   */
  lemma MergeGathers(l: Led, order: seq<string>, key: string)
    requires Lists(order, l.chats)
    ensures key in Normalized(l.chats, order) <==> exists k :: k in l.chats && KeyOf(k) == key
    ensures Gathers(l, order, key, Cursor()) && Gathers(l, order, key, RetryAt()) && Gathers(l, order, key, Retries())
  {
    ListedKeys(l.chats, order, key);
    MergedIsLargest(l.chats, order, key, Cursor());
    MergedIsLargest(l.chats, order, key, RetryAt());
    MergedIsLargest(l.chats, order, key, Retries());
  }

  lemma LaneCursorGathers(l: Led, order: seq<string>, key: string, t: Topic)
    requires Lists(order, l.chats)
    ensures Gathers(l, order, key, LaneCursor(t))
  {
    forall a: ChatEntry, b: ChatEntry ensures MergesLargest(LaneCursor(t), a, b) { }
    MergedIsLargest(l.chats, order, key, LaneCursor(t));
  }

  lemma LaneRetryAtGathers(l: Led, order: seq<string>, key: string, t: Topic)
    requires Lists(order, l.chats)
    ensures Gathers(l, order, key, LaneRetryAt(t))
  {
    forall a: ChatEntry, b: ChatEntry ensures MergesLargest(LaneRetryAt(t), a, b) { }
    MergedIsLargest(l.chats, order, key, LaneRetryAt(t));
  }

  lemma LaneFailuresGathers(l: Led, order: seq<string>, key: string, t: Topic)
    requires Lists(order, l.chats)
    ensures Gathers(l, order, key, LaneFailures(t))
  {
    forall a: ChatEntry, b: ChatEntry ensures MergesLargest(LaneFailures(t), a, b) { }
    MergedIsLargest(l.chats, order, key, LaneFailures(t));
  }

  /** And so lane by lane. */
  lemma LanesGather(l: Led, order: seq<string>, key: string, t: Topic)
    requires Lists(order, l.chats)
    ensures Gathers(l, order, key, LaneCursor(t)) && Gathers(l, order, key, LaneRetryAt(t))
    ensures Gathers(l, order, key, LaneFailures(t))
  {
    LaneCursorGathers(l, order, key, t);
    LaneRetryAtGathers(l, order, key, t);
    LaneFailuresGathers(l, order, key, t);
  }

  // ----- The fields that keep the first value ----------------------------------------------------

  /** The value of the first alias that has one. */
  ghost predicate FirstOf<X>(r: Option<X>, values: ChatEntry -> Option<X>, chats: Chats, order: seq<string>,
      key: string)
    requires forall k :: k in order ==> k in chats
  {
    if r.None? then forall i: nat :: IsAlias(order, key, i) ==> values(chats[order[i]]).None?
    else exists i: nat :: IsAlias(order, key, i) && values(chats[order[i]]) == r
                          && forall j: nat :: j < i && IsAlias(order, key, j) ==> values(chats[order[j]]).None?
  }

  predicate MergesFirst<X(==)>(values: ChatEntry -> Option<X>, a: ChatEntry, b: ChatEntry) {
    values(MergeChats(a, b)) == if values(a).Some? then values(a) else values(b)
  }

  lemma FirstStep<X>(r: Option<X>, values: ChatEntry -> Option<X>, chats: Chats, order: seq<string>, k: string,
      key: string)
    requires k in chats && (forall x :: x in order ==> x in chats) && FirstOf(r, values, chats, order, key)
    ensures FirstOf(if r.Some? || KeyOf(k) != key then r else values(chats[k]), values, chats, order + [k], key)
  {
    var more := order + [k];
    forall i: nat ensures IsAlias(more, key, i) <==> IsAlias(order, key, i) || (i == |order| && KeyOf(k) == key) {
      AliasOfMore(order, k, key, i);
    }
    if r.Some? {
      var i: nat :| IsAlias(order, key, i) && values(chats[order[i]]) == r
        && forall j: nat :: j < i && IsAlias(order, key, j) ==> values(chats[order[j]]).None?;
      assert IsAlias(more, key, i) && more[i] == order[i];
    } else if KeyOf(k) == key {
      assert IsAlias(more, key, |order|) && more[|order|] == k;
    }
  }

  lemma {:induction false} MergedIsFirst<X>(chats: Chats, order: seq<string>, key: string,
      values: ChatEntry -> Option<X>)
    requires forall k :: k in order ==> k in chats
    requires forall a, b :: MergesFirst(values, a, b)
    ensures var merged := Normalized(chats, order);
      FirstOf(if key in merged then values(merged[key]) else None, values, chats, order, key)
  {
    if order != [] {
      var rest, k := order[..|order| - 1], order[|order| - 1];
      MergedIsFirst(chats, rest, key, values);
      var before := Normalized(chats, rest);
      FirstStep(if key in before then values(before[key]) else None, values, chats, rest, k, key);
      if key in before { assert MergesFirst(values, before[key], chats[k]); }
      assert order == rest + [k];
    }
  }

  function DayOf(): ChatEntry -> Option<int> { (e: ChatEntry) => Some(e.day) }

  function WaitOf(t: Topic): ChatEntry -> Option<(nat, nat)> {
    (e: ChatEntry) =>
      if t in e.topics && e.topics[t].waitAnchor.Some? then Some((e.topics[t].waitAnchor.value, e.topics[t].waitCount))
      else None
  }

  /** What counts for one spelling only is that of the first which has it: the day, and what a lane waits for. */
  lemma MergeKeepsFirst(l: Led, order: seq<string>, key: string, t: Topic)
    requires Lists(order, l.chats)
    ensures var merged := Normalized(l.chats, order);
      && FirstOf(if key in merged then DayOf()(merged[key]) else None, DayOf(), l.chats, order, key)
      && FirstOf(if key in merged then WaitOf(t)(merged[key]) else None, WaitOf(t), l.chats, order, key)
  {
    MergedIsFirst(l.chats, order, key, DayOf());
    MergedIsFirst(l.chats, order, key, WaitOf(t));
  }

  // ----- The fields that add up ------------------------------------------------------------------

  function AliasSum(chats: Chats, order: seq<string>, key: string, count: ChatEntry -> nat): nat
    requires forall k :: k in order ==> k in chats
  {
    if order == [] then 0
    else
      var k := order[|order| - 1];
      AliasSum(chats, order[..|order| - 1], key, count) + if KeyOf(k) == key then count(chats[k]) else 0
  }

  /** The replies counted for a chat are the sum over its spellings. */
  lemma {:induction false} MergeAdds(chats: Chats, order: seq<string>, key: string, count: ChatEntry -> nat)
    requires forall k :: k in order ==> k in chats
    requires count == Replies() || count == AddressedReplies()
    ensures var merged := Normalized(chats, order);
      (if key in merged then count(merged[key]) else 0) == AliasSum(chats, order, key, count)
  {
    if order != [] { MergeAdds(chats, order[..|order| - 1], key, count); }
  }

  // ----- The day roll ----------------------------------------------------------------------------

  /**
   * A new day starts all counters at zero and forgets a chat only if there is nothing to keep of it; the
   * failures of a chat count for its deadline only. On the same day nothing changes.
   */
  lemma RollExactly(l: Led, today: int, key: string)
    ensures l.day == today ==> Rolled(l, today) == l
    ensures l.day != today ==>
      var l' := Rolled(l, today);
      && l'.day == today && l'.reply == 0 && l'.addressed == 0 && l'.react == 0 && l'.legacy == l.legacy
      && (key in l'.chats <==> key in l.chats && (l.chats[key].cursor.Some? || l.chats[key].retryAt.Some?
                                                 || l.chats[key].topics != map[]))
      && (key in l'.chats ==>
            var e, e' := l.chats[key], l'.chats[key];
            e' == ChatEntry(today, 0, 0, e.cursor, e.topics, if e.retryAt.Some? then e.retries else 0, e.retryAt))
  {
  }
}
