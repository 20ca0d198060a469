/** What enqueueing and delivering make of a group action, field by field, and how often one is tried. */
module GroupTries {
  import opened Prelude
  import opened Text
  import opened Peers
  import opened GroupActions
  import opened GroupRuns
  import Outbox

  // ----- Which calls are about one action --------------------------------------------------------

  /** What identifies a standalone post: its request id if it has one, else its text. */
  function DigestOf(h: Hashes, payload: string, request: string): string {
    if Strip(request) == "" then h.ofPayload(payload) else h.ofRequest(Strip(request))
  }

  /**
   * Two calls are about one action exactly if they name the same chat, message and kind, and, for posts
   * that answer no message, the same request or text, as far as the digest can tell.
   */
  lemma SameActionExactlyWhen(h: Hashes, chat: string, msgId: int, action: Action, payload: string, request: string,
      chat': string, msgId': int, action': Action, payload': string, request': string)
    ensures
      KeyFor(h, chat, msgId, action, payload, request) == KeyFor(h, chat', msgId', action', payload', request') <==>
      && Canonical(chat) == Canonical(chat') && action == action'
      && (if msgId > 0 then msgId' == msgId
          else msgId' <= 0 && DigestOf(h, payload, request) == DigestOf(h, payload', request'))
    ensures HashesOk(h) ==> (KeyFor(h, chat, msgId, action, payload, request).intent == "" <==> msgId > 0)
  {
  }

  /** Enqueueing finds the live row of the key, else the row filed under its id, else queues a new one, due at once. */
  lemma EnqueuedExactly(t: Table, h: Hashes, k: Natural, payload: string, maxAttempts: nat, now: real)
    ensures var (t', r) := EnqueueIn(t, h, k, payload, maxAttempts, now);
      if exists id :: id in t && Live(t[id]) && NaturalOf(t[id]) == k then
        t' == t && exists id :: id in t && Live(t[id]) && NaturalOf(t[id]) == k && r == t[id]
      else if h.idOf(k) in t then t' == t && r == t[h.idOf(k)]
      else
        && t' == t[h.idOf(k) := r]
        && r == Row(h.idOf(k), k.chat, k.msgId, k.action, k.intent, h.randomOf(h.idOf(k)), payload, Pending, 0,
                    maxAttempts, now, now, now, [])
  {
  }

  // ----- Opening ---------------------------------------------------------------------------------

  /** Opening a table takes back exactly the deliveries that began 120 seconds ago or more, and they are due at once. */
  lemma TakenBackExactly(t: Table, p: Policy, indexed: bool, now: real, id: string)
    requires Clean(t, p) && PolicyOk(p) && id in t
    ensures var o, r := Opened(t, p, false, indexed, now), t[id];
      id in o && o[id] ==
        if r.status == Sending && r.updatedAt + 120.0 <= now
        then r.(status := Retry, nextAt := now, updatedAt := now) else r
  {
    OpeningAgainOnlyRecovers(t, p, indexed, now);
  }

  /** The row as opening leaves it: a delivery under way for 120 seconds waits again, due at once. */
  function TakenBack(r: Row, now: real): Row {
    if r.status == Sending && r.updatedAt + 120.0 <= now
    then r.(status := Retry, nextAt := now, updatedAt := now) else r
  }

  /** Opening left this row in `t'`, or deleted it because it is terminal and old or far back in the listing. */
  ghost predicate OpenLeaves(r: Row, t': Table, prune: Option<seq<Row>>, now: real, id: string) {
    && (id in t' ==> t'[id] == TakenBack(r, now))
    && (id !in t' ==> prune.Some? && Terminal(r))
    && (prune.Some? && Terminal(r) ==>
          exists i: nat :: i < |prune.value| && prune.value[i] == r
                           && (id in t' <==> r.updatedAt >= now - 2592000.0 && i < 5000))
  }

  /** A process that opens the table in a run does the same, and may delete terminal rows, but no others. */
  lemma OpenStepExactly(s: State, h: Hashes, p: Policy, now: real, prune: Option<seq<Row>>, id: string)
    requires Clean(s.t, p) && PolicyOk(p) && id in s.t
    requires prune.Some? ==> NewestFirst(prune.value, Opened(s.t, p, false, true, now))
    ensures OpenLeaves(s.t[id], Step(s, h, p, Open(now, prune)).t, prune, now, id)
  {
    var o := Opened(s.t, p, false, true, now);
    TakenBackExactly(s.t, p, true, now, id);
    OpenedKeyed(s.t, p, now);
    PrunedLeaves(s.t[id], o, prune, now, id);
    OpenStepIs(s, h, p, now, prune, o);
  }

  lemma OpenStepIs(s: State, h: Hashes, p: Policy, now: real, prune: Option<seq<Row>>, o: Table)
    requires o == Opened(s.t, p, false, true, now)
    ensures Step(s, h, p, Open(now, prune)).t == if prune.Some? then Pruned(o, prune.value, now) else o
  {
  }

  lemma OpenedKeyed(t: Table, p: Policy, now: real)
    requires Clean(t, p) && PolicyOk(p)
    ensures Keyed(Opened(t, p, false, true, now))
  {
    OpeningMigrates(t, p, false, true, now);
  }

  lemma PrunedLeaves(r: Row, o: Table, prune: Option<seq<Row>>, now: real, id: string)
    requires Keyed(o) && id in o && o[id] == TakenBack(r, now) && (prune.Some? ==> NewestFirst(prune.value, o))
    ensures OpenLeaves(r, if prune.Some? then Pruned(o, prune.value, now) else o, prune, now, id)
  {
    if prune.Some? { PrunedRow(o, prune.value, now, id); }
  }

  lemma PrunedRow(o: Table, order: seq<Row>, now: real, id: string)
    requires NewestFirst(order, o) && Keyed(o) && id in o
    ensures id in Pruned(o, order, now) ==> Pruned(o, order, now)[id] == o[id]
    ensures id !in Pruned(o, order, now) ==> Terminal(o[id])
    ensures Terminal(o[id]) ==>
      exists i: nat :: i < |order| && order[i] == o[id]
                       && (id in Pruned(o, order, now) <==> o[id].updatedAt >= now - 2592000.0 && i < 5000)
  {
    if Terminal(o[id]) {
      var i: nat :| i < |order| && order[i] == o[id];
      PrunedExactly(o, order, now, i);
    }
  }

  // ----- One delivery ----------------------------------------------------------------------------

  /** A delivery begins exactly if its row is there, neither ended nor under way, due, and alone with its key. */
  lemma BeginsExactlyWhen(t: Table, id: string, now: real)
    requires Keyed(t)
    ensures CanBegin(t, id, now) <==>
      && id in t && (t[id].status == Pending || t[id].status == Retry || t[id].status == Superseded)
      && t[id].nextAt <= now
      && forall j :: j in t && j != id && Live(t[j]) ==> NaturalOf(t[j]) != NaturalOf(t[id])
  {
    if id in t {
      var begun := Begun(t[id], now);
      assert NaturalOf(begun) == NaturalOf(t[id]);
      forall j | j in t
        ensures Clashes(t[j], begun) <==> j != id && Live(t[j]) && NaturalOf(t[j]) == NaturalOf(t[id])
      {
      }
    }
  }

  /** The wait after a failed attempt doubles from the base up to five minutes. */
  lemma WaitExactly(r: Row, began: real, base: real)
    requires 0.0 < base <= 300.0 && r.attempts < r.maxAttempts
    ensures var wait := Failed(r, began, base).nextAt - began;
      && (r.attempts <= 1 ==> wait == base)
      && (r.attempts >= 1 && r.attempts + 1 < r.maxAttempts ==>
            var next := Failed(r.(attempts := r.attempts + 1), began, base).nextAt - began;
            next == if 2.0 * wait <= 300.0 then 2.0 * wait else 300.0)
  {
    assert Outbox.Doubled(0) == 1.0;
    if r.attempts >= 1 {
      assert Outbox.Doubled(r.attempts) == 2.0 * Outbox.Doubled(r.attempts - 1);
      TwiceAsMuch(base, Outbox.Doubled(r.attempts - 1));
    }
  }

  lemma TwiceAsMuch(k: real, d: real)
    ensures k * (2.0 * d) == 2.0 * (k * d)
  {
  }

  /** A beginning counts one attempt; a failed row keeps it, and is dead at its limit and due again below it. */
  lemma EndsExactly(r: Row, now: real, base: real, ids: seq<int>, later: real)
    ensures Begun(r, now) == r.(status := Sending, attempts := r.attempts + 1, updatedAt := now)
    ensures Acknowledged(r, ids, later) == r.(status := Acked, messageIds := ids, updatedAt := later)
    ensures var f := Failed(r, now, base);
      && SameIntent(r, f) && f.attempts == r.attempts && f.maxAttempts == r.maxAttempts && f.updatedAt == now
      && f.status == (if r.attempts >= r.maxAttempts then Dead else Retry)
      && (f.status == Dead ==> f.nextAt == now)
  {
  }

  // ----- How often an action is tried ------------------------------------------------------------

  /** The delivery of `r` began and failed, and left `r'`. */
  ghost predicate TriedInVain(r: Row, r': Row) { exists t, now, base :: FailedTry(t, now, base, r, r') }

  ghost predicate FailedTry(t: Table, now: real, base: real, r: Row, r': Row) {
    && Keyed(t) && r.id in t && t[r.id] == r && CanBegin(t, r.id, now)
    && var after := Write(t[r.id := Begun(r, now)], Failed(Begun(r, now), now, base));
       r.id in after && after[r.id] == r'
  }

  lemma TryCounts(r: Row, r': Row)
    requires TriedInVain(r, r') && Live(r)
    ensures (r.status == Pending || r.status == Retry) && SameIntent(r, r') && r'.maxAttempts == r.maxAttempts
    ensures r'.attempts == r.attempts + 1
    ensures r'.status == if r.attempts + 1 >= r.maxAttempts then Dead else Retry
  {
    var t, now, base :| FailedTry(t, now, base, r, r');
    var begun := Begun(r, now);
    EndsExactly(begun, now, base, [], now);
    BeginsExactlyWhen(t, r.id, now);
    NoClash(t[r.id := begun], Failed(begun, now, base));
  }

  lemma NoClash(t: Table, r: Row)
    requires r.id in t && forall j :: j in t && j != r.id && Live(t[j]) ==> NaturalOf(t[j]) != NaturalOf(r)
    requires Keyed(t)
    ensures Write(t, r) == t[r.id := r]
  {
    forall j | j in t ensures !Clashes(t[j], r) { }
  }

  /**
   * An action whose deliveries all fail is tried exactly as often as it has attempts left, and is given
   * up after the last try and not before.
   */
  lemma {:induction false} TriedToTheEnd(rs: seq<Row>, n: nat)
    requires n < |rs| && forall i :: 0 <= i < |rs| - 1 ==> TriedInVain(rs[i], rs[i + 1])
    requires (rs[0].status == Pending || rs[0].status == Retry) && rs[0].attempts < rs[0].maxAttempts
    ensures n <= rs[0].maxAttempts - rs[0].attempts && SameIntent(rs[0], rs[n])
    ensures rs[n].maxAttempts == rs[0].maxAttempts
    ensures rs[n].attempts == rs[0].attempts + n
    ensures rs[n].status == Dead <==> n == rs[0].maxAttempts - rs[0].attempts
    ensures 0 < n < rs[0].maxAttempts - rs[0].attempts ==> rs[n].status == Retry
  {
    if n > 0 {
      TriedToTheEnd(rs, n - 1);
      TryCounts(rs[n - 1], rs[n]);
    }
  }
}
