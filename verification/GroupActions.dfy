/** The table of group actions: migration of legacy rows, first payload wins, retries and pruning. */
module GroupActions {
  import opened Prelude
  import opened Text
  import opened Peers

  datatype Action = Reply | React

  datatype Status = Pending | Retry | Sending | Acked | Dead | Superseded

  datatype Row = Row(
    id: string, chat: string, msgId: nat, action: Action, intent: string, randomId: int, payload: string,
    status: Status, attempts: nat, maxAttempts: nat, nextAt: real, createdAt: real, updatedAt: real,
        messageIds: seq<int>)

  type Table = map<string, Row>

  /** What one send intent is about. */
  datatype Natural = Natural(chat: string, msgId: nat, action: Action, intent: string)

  /**
   * The SHA-256 digests the outbox takes, section 6.2 of FIPS 180-4: nothing is assumed about
   * collisions. The prefixes keep intents from being empty and the random id is never zero.
   */
  datatype Hashes = Hashes(ofPayload: string -> string, ofRequest: string -> string, idOf: Natural -> string,
      randomOf: string -> int)

  ghost predicate HashesOk(h: Hashes) {
    (forall s :: h.ofPayload(s) != "" && h.ofRequest(s) != "") && (forall s :: h.randomOf(s) != 0)
  }

  function NaturalOf(r: Row): Natural { Natural(r.chat, r.msgId, r.action, r.intent) }

  predicate Live(r: Row) { r.status != Superseded }

  predicate Terminal(r: Row) { r.status == Acked || r.status == Dead || r.status == Superseded }

  ghost predicate Keyed(t: Table) { forall id :: id in t ==> t[id].id == id }

  /** At most one live row per natural key: what the partial unique index enforces. */
  ghost predicate Unique(t: Table) {
    forall a, b :: a in t && b in t && Live(t[a]) && Live(t[b]) && NaturalOf(t[a]) == NaturalOf(t[b]) ==> a == b
  }

  // ----- Opening the table: recovery and migration -----------------------------------------------

  const LEASE_SECONDS := 120.0

  function RecoverRow(r: Row, now: real): Row {
    if r.status == Sending && r.updatedAt <= now - LEASE_SECONDS
    then r.(status := Retry, nextAt := now, updatedAt := now)
    else r
  }

  function Numbered(r: Row, h: Hashes): Row { r.(randomId := if r.randomId == 0 then h.randomOf(r.id) else r.randomId) }

  /** One spelling per chat, an intent for every standalone post, a random id for every row. */
  function NormalRow(r: Row, h: Hashes): Row {
    var intent := if r.msgId == 0 && r.intent == "" then h.ofPayload(r.payload) else r.intent;
    Numbered(r.(chat := KeyOf(r.chat), intent := intent), h)
  }

  predicate Respelled(r: Row) { KeyOf(r.chat) != r.chat || (r.msgId == 0 && r.intent == "") }

  function MapRows(t: Table, f: Row -> Row): Table { map id | id in t :: f(t[id]) }

  /** Acknowledged rows come first, then the rows still to be sent, oldest first. */
  function Rank(s: Status): nat {
    match s case Acked => 0 case Pending => 1 case Retry => 2 case Sending => 3 case _ => 4
  }

  predicate Precedes(a: Row, b: Row) {
    Rank(a.status) < Rank(b.status)
    || (Rank(a.status) == Rank(b.status)
      && (a.createdAt < b.createdAt || (a.createdAt == b.createdAt && LexLe(a.id, b.id))))
  }

  /** Where a status stands in this list; everything else stands behind it. */
  ghost predicate StandsAt(s: Status, i: nat) {
    i <= 4 && if i < 4 then s == [Acked, Pending, Retry, Sending][i] else s !in [Acked, Pending, Retry, Sending]
  }

  /** An acknowledged row comes first, then one that waits, retries or is being sent; then the older one. */
  lemma PrecedesExactly(a: Row, b: Row, i: nat, j: nat)
    requires StandsAt(a.status, i) && StandsAt(b.status, j)
    ensures Precedes(a, b) <==>
      i < j || (i == j && (a.createdAt < b.createdAt || (a.createdAt == b.createdAt && LexLe(a.id, b.id))))
  {
    assert [Acked, Pending, Retry, Sending] == [Acked] + [Pending] + [Retry] + [Sending];
  }

  /** A live row of the same natural key comes first. */
  predicate Loses(t: Table, r: Row) {
    Live(r) && exists id :: id in t && BeatenBy(r, t[id])
  }

  predicate BeatenBy(r: Row, other: Row) {
    other.id != r.id && Live(other) && NaturalOf(other) == NaturalOf(r) && Precedes(other, r)
  }

  function Deduplicated(t: Table, now: real): Table {
    map id | id in t :: if Loses(t, t[id]) then t[id].(status := Superseded, updatedAt := now) else t[id]
  }

  /** What opening does to single rows. */
  datatype Policy = Policy(norm: Row -> Row, number: Row -> Row, respelled: Row -> bool)

  function PolicyOf(h: Hashes): Policy {
    Policy((r: Row) => NormalRow(r, h), (r: Row) => Numbered(r, h), (r: Row) => Respelled(r))
  }

  function Recovering(now: real): Row -> Row { (r: Row) => RecoverRow(r, now) }

  predicate NeedsRebuild(t: Table, p: Policy, addedIntent: bool, indexed: bool) {
    addedIntent || !indexed || exists id :: id in t && p.respelled(t[id])
  }

  /** The constructor up to pruning. `indexed` says that the current unique index is already there. */
  function Opened(t: Table, p: Policy, addedIntent: bool, indexed: bool, now: real): Table {
    var recovered := MapRows(t, Recovering(now));
    if NeedsRebuild(recovered, p, addedIntent, indexed) then Deduplicated(MapRows(recovered, p.norm), now)
    else MapRows(recovered, p.number)
  }

  // ----- The winner of a group -------------------------------------------------------------------

  lemma PrecedesOrders(a: Row, b: Row, c: Row)
    ensures Precedes(a, b) || Precedes(b, a)
    ensures Precedes(a, b) && Precedes(b, a) ==> a.id == b.id
    ensures Precedes(a, b) && Precedes(b, c) ==> Precedes(a, c)
  {
    LexTotal(a.id, b.id);
    if LexLe(a.id, b.id) && LexLe(b.id, c.id) { LexTransitive(a.id, b.id, c.id); }
  }

  function GroupOf(t: Table, k: Natural): set<string> { set id | id in t && Live(t[id]) && NaturalOf(t[id]) == k }

  ghost predicate Wins(t: Table, group: set<string>, id: string) {
    id in group && id in t && forall j :: j in group && j in t ==> Precedes(t[id], t[j])
  }

  lemma {:induction false} WinnerExists(t: Table, group: set<string>)
    requires group != {} && group <= t.Keys
    ensures exists id :: Wins(t, group, id)
    decreases |group|
  {
    var k :| k in group;
    PrecedesOrders(t[k], t[k], t[k]);
    var rest := group - {k};
    if rest == {} {
      assert group == {k};
      assert Wins(t, group, k);
    } else {
      WinnerExists(t, rest);
      var m :| Wins(t, rest, m);
      PrecedesOrders(t[k], t[m], t[m]);
      if Precedes(t[k], t[m]) {
        forall j | j in group && j in t ensures Precedes(t[k], t[j]) { PrecedesOrders(t[k], t[m], t[j]); }
        assert Wins(t, group, k);
      } else {
        assert Wins(t, group, m);
      }
    }
  }

  /** The winner is the one live row of its group that does not lose. */
  lemma WinnerStays(t: Table, k: Natural, id: string)
    requires Keyed(t) && id in GroupOf(t, k)
    ensures Wins(t, GroupOf(t, k), id) <==> !Loses(t, t[id])
  {
    if Wins(t, GroupOf(t, k), id) {
      forall j | j in t ensures !BeatenBy(t[id], t[j]) {
        if j in GroupOf(t, k) { PrecedesOrders(t[id], t[j], t[j]); }
      }
    } else {
      var j :| j in GroupOf(t, k) && j in t && !Precedes(t[id], t[j]);
      PrecedesOrders(t[id], t[j], t[j]);
      PrecedesOrders(t[id], t[id], t[id]);
      assert BeatenBy(t[id], t[j]);
    }
  }

  /**
   * Deduplication leaves one live row per natural key, the first by status rank, age and id; so
   * an acknowledged row always wins its group. It deletes nothing and rewrites no payload.
   */
  lemma DeduplicationKeepsTheBest(t: Table, now: real, k: Natural)
    requires Keyed(t)
    ensures Unique(Deduplicated(t, now)) && Deduplicated(t, now).Keys == t.Keys
    ensures GroupOf(t, k) != {} ==>
      exists id :: (
        Wins(t, GroupOf(t, k), id) && GroupOf(Deduplicated(t, now), k) == {id} && Deduplicated(t, now)[id] == t[id]
        && ((exists j :: j in GroupOf(t, k) && t[j].status == Acked) ==> t[id].status == Acked))
  {
    var d := Deduplicated(t, now);
    forall a, b | a in d && b in d && Live(d[a]) && Live(d[b]) && NaturalOf(d[a]) == NaturalOf(d[b])
      ensures a == b
    {
      assert !Loses(t, t[a]) && !Loses(t, t[b]);
      PrecedesOrders(t[a], t[b], t[b]);
      assert !BeatenBy(t[a], t[b]) && !BeatenBy(t[b], t[a]);
    }
    if GroupOf(t, k) != {} {
      WinnerExists(t, GroupOf(t, k));
      var id :| Wins(t, GroupOf(t, k), id);
      WinnerStays(t, k, id);
      forall j ensures j in GroupOf(d, k) <==> j == id {
        if j in GroupOf(d, k) { assert Live(d[j]) && Live(d[id]) && NaturalOf(d[j]) == NaturalOf(d[id]); }
      }
    }
  }

  // ----- Migration -------------------------------------------------------------------------------

  predicate SameIntent(a: Row, b: Row) {
    a.id == b.id && NaturalOf(a) == NaturalOf(b) && a.randomId == b.randomId && a.payload == b.payload
  }

  predicate SameProgress(a: Row, b: Row) {
    a.id == b.id && a.status == b.status && a.createdAt == b.createdAt && a.payload == b.payload
  }

  /** Normalising is idempotent, leaves progress alone, and looks at nothing that sending changes. */
  ghost predicate PolicyOk(p: Policy) {
    && (forall r :: p.norm(p.norm(r)) == p.norm(r) && SameProgress(p.norm(r), r))
    && (forall r :: !p.respelled(r) ==> p.number(r) == p.norm(r) && NaturalOf(p.norm(r)) == NaturalOf(r))
    && (forall r :: p.norm(r) == r ==> p.number(r) == r)
    && (forall r, r' :: SameIntent(r, r') && p.norm(r) == r ==> p.norm(r') == r')
  }

  lemma NormalIsFixed(r: Row, h: Hashes)
    requires HashesOk(h)
    ensures NormalRow(NormalRow(r, h), h) == NormalRow(r, h)
  {
    KeyOfIdempotent(r.chat);
  }

  lemma PolicyIsOk(h: Hashes)
    requires HashesOk(h)
    ensures PolicyOk(PolicyOf(h))
  {
    forall r: Row ensures NormalRow(NormalRow(r, h), h) == NormalRow(r, h) { NormalIsFixed(r, h); }
  }

  ghost predicate NormalTable(t: Table, p: Policy) { forall id :: id in t ==> p.norm(t[id]) == t[id] }

  lemma RecoveringKeeps(t: Table, p: Policy, now: real)
    requires Keyed(t)
    ensures var r := MapRows(t, Recovering(now));
      && Keyed(r) && r.Keys == t.Keys && (forall id :: id in t ==>
        SameIntent(t[id], r[id]) && (Live(r[id]) <==> Live(t[id])))
      && (Unique(t) ==> Unique(r))
  {
    var r := MapRows(t, Recovering(now));
    assert forall id :: id in t ==> SameIntent(t[id], r[id]) && (Live(r[id]) <==> Live(t[id]));
  }

  lemma DeduplicationKeepsNormal(t: Table, p: Policy, now: real)
    requires PolicyOk(p) && NormalTable(t, p) && Keyed(t)
    ensures NormalTable(Deduplicated(t, now), p) && Keyed(Deduplicated(t, now))
  {
    var d := Deduplicated(t, now);
    forall id | id in t ensures p.norm(d[id]) == d[id] && d[id].id == id { assert SameIntent(t[id], d[id]); }
  }

  lemma NormalizingNormalizes(t: Table, p: Policy)
    requires PolicyOk(p) && Keyed(t)
    ensures NormalTable(MapRows(t, p.norm), p) && Keyed(MapRows(t, p.norm)) && MapRows(t, p.norm).Keys == t.Keys
  {
    forall id | id in t ensures p.norm(p.norm(t[id])) == p.norm(t[id]) && p.norm(t[id]).id == id {
      assert SameProgress(p.norm(t[id]), t[id]);
    }
  }

  lemma NumberingIsEnough(t: Table, p: Policy)
    requires PolicyOk(p) && Keyed(t) && Unique(t) && forall id :: id in t ==> !p.respelled(t[id])
    ensures MapRows(t, p.number) == MapRows(t, p.norm) && Unique(MapRows(t, p.number))
  {
    var m := MapRows(t, p.number);
    forall id | id in t
      ensures m[id] == p.norm(t[id]) && NaturalOf(m[id]) == NaturalOf(t[id]) && (Live(m[id]) <==> Live(t[id]))
    {
      assert SameProgress(p.norm(t[id]), t[id]);
    }
  }

  /**
   * From any legacy table, spelled and keyed as it may be, opening reaches a table with unique
   * natural keys and normal rows, and drops no row.
   */
  lemma OpeningMigrates(t: Table, p: Policy, addedIntent: bool, indexed: bool, now: real)
    requires Keyed(t) && PolicyOk(p) && (indexed && !addedIntent ==> Unique(t))
    ensures var o := Opened(t, p, addedIntent, indexed, now);
      Keyed(o) && Unique(o) && NormalTable(o, p) && o.Keys == t.Keys
  {
    var recovered := MapRows(t, Recovering(now));
    RecoveringKeeps(t, p, now);
    NormalizingNormalizes(recovered, p);
    if NeedsRebuild(recovered, p, addedIntent, indexed) {
      var normal := MapRows(recovered, p.norm);
      DeduplicationKeepsTheBest(normal, now, Natural("", 0, Reply, ""));
      DeduplicationKeepsNormal(normal, p, now);
    } else {
      NumberingIsEnough(recovered, p);
    }
  }

  lemma MappingFixed(t: Table, f: Row -> Row)
    requires forall id :: id in t ==> f(t[id]) == t[id]
    ensures MapRows(t, f) == t
  {
  }

  lemma UniqueHasNoLosers(t: Table, now: real)
    requires Keyed(t) && Unique(t)
    ensures Deduplicated(t, now) == t
  {
    forall id, j | id in t && j in t ensures !BeatenBy(t[id], t[j]) || !Live(t[id]) { }
  }

  /** Opening a table that is normal and unique changes nothing but abandoned sends. */
  lemma OpeningAgainOnlyRecovers(t: Table, p: Policy, indexed: bool, now: real)
    requires Keyed(t) && PolicyOk(p) && Unique(t) && NormalTable(t, p)
    ensures Opened(t, p, false, indexed, now) == MapRows(t, Recovering(now))
  {
    var recovered := MapRows(t, Recovering(now));
    RecoveringKeeps(t, p, now);
    forall id | id in t ensures p.norm(recovered[id]) == recovered[id] && p.number(recovered[id]) == recovered[id] {
      assert SameIntent(t[id], recovered[id]) && p.norm(t[id]) == t[id];
    }
    MappingFixed(recovered, p.norm);
    MappingFixed(recovered, p.number);
    UniqueHasNoLosers(recovered, now);
  }

  /** A second run supersedes nothing more: whatever the first one left live stays live. */
  lemma SecondMigrationSupersedesNothing(t: Table, h: Hashes, addedIntent: bool, indexed: bool, now: real, later: real)
    requires Keyed(t) && HashesOk(h) && (indexed && !addedIntent ==> Unique(t))
    ensures var first := Opened(t, PolicyOf(h), addedIntent, indexed, now);
      Opened(first, PolicyOf(h), false, true, later) == MapRows(first, Recovering(later))
  {
    PolicyIsOk(h);
    OpeningMigrates(t, PolicyOf(h), addedIntent, indexed, now);
    OpeningAgainOnlyRecovers(Opened(t, PolicyOf(h), addedIntent, indexed, now), PolicyOf(h), true, later);
  }

  // ----- What migration keeps ---------------------------------------------------------------------

  /** The rows as opening compares them: abandoned sends recovered, spelled and keyed in the current way. */
  function Normalised(t: Table, p: Policy, now: real): Table { MapRows(MapRows(t, Recovering(now)), p.norm) }

  /** With or without a rebuild of the index, opening is deduplication of the normalised table. */
  lemma OpeningDeduplicates(t: Table, p: Policy, addedIntent: bool, indexed: bool, now: real)
    requires Keyed(t) && PolicyOk(p) && (indexed && !addedIntent ==> Unique(t))
    ensures Keyed(Normalised(t, p, now)) && Normalised(t, p, now).Keys == t.Keys
    ensures Opened(t, p, addedIntent, indexed, now) == Deduplicated(Normalised(t, p, now), now)
  {
    var recovered := MapRows(t, Recovering(now));
    RecoveringKeeps(t, p, now);
    NormalizingNormalizes(recovered, p);
    if !NeedsRebuild(recovered, p, addedIntent, indexed) {
      NumberingIsEnough(recovered, p);
      UniqueHasNoLosers(Normalised(t, p, now), now);
    }
  }

  /**
   * Opening any legacy table keeps one live row of each natural key, the best by status rank, age
   * and id; so if any row of the group was acknowledged, an acknowledged one is kept.
   */
  lemma OpeningKeepsTheBest(t: Table, h: Hashes, addedIntent: bool, indexed: bool, now: real, k: Natural)
    requires Keyed(t) && HashesOk(h) && (indexed && !addedIntent ==> Unique(t))
    requires GroupOf(Normalised(t, PolicyOf(h), now), k) != {}
    ensures var normal, o := Normalised(t, PolicyOf(h), now), Opened(t, PolicyOf(h), addedIntent, indexed, now);
      exists id :: (
        Wins(normal, GroupOf(normal, k), id) && GroupOf(o, k) == {id} && id in o && o[id] == normal[id]
        && ((exists j :: j in GroupOf(normal, k) && j in t && t[j].status == Acked) ==> o[id].status == Acked))
  {
    var normal := Normalised(t, PolicyOf(h), now);
    PolicyIsOk(h);
    OpeningDeduplicates(t, PolicyOf(h), addedIntent, indexed, now);
    DeduplicationKeepsTheBest(normal, now, k);
    forall j | j in t ensures t[j].status == Acked ==> normal[j].status == Acked { NormalKeepsProgress(t[j], h, now); }
  }

  /** Normalising changes nothing that decides between rows. */
  lemma NormalKeepsProgress(r: Row, h: Hashes, now: real)
    ensures SameProgress(NormalRow(RecoverRow(r, now), h), RecoverRow(r, now))
    ensures r.status == Acked ==> RecoverRow(r, now) == r
  {
  }

  /** The natural key a row gets when a table is opened. */
  function KeyOnOpening(r: Row, h: Hashes): Natural {
    var intent := if r.msgId == 0 && r.intent == "" then h.ofPayload(r.payload) else r.intent;
    Natural(KeyOf(r.chat), r.msgId, r.action, intent)
  }

  /** Another live row stands for the same message as `post` does on opening. */
  predicate Rivals(other: Row, post: Row, h: Hashes) {
    other.id != post.id && Live(other) && KeyOnOpening(other, h) == KeyOnOpening(post, h)
  }

  /** A row as opening compares it. */
  function NormalOf(r: Row, h: Hashes, now: real): Row { NormalRow(RecoverRow(r, now), h) }

  /** What opening compares decides like the rows it was made from. */
  lemma BeatenOnOpening(post: Row, other: Row, h: Hashes, now: real)
    ensures BeatenBy(NormalOf(post, h, now), NormalOf(other, h, now)) <==>
      Rivals(other, post, h) && Precedes(RecoverRow(other, now), RecoverRow(post, now))
  {
    NormalKeepsProgress(post, h, now);
    NormalKeepsProgress(other, h, now);
  }

  lemma LosesToSome(t: Table, now: real, id: string)
    requires Keyed(t) && id in t && Live(t[id])
    ensures !Live(Deduplicated(t, now)[id]) <==> exists j :: j in t && BeatenBy(t[id], t[j])
  {
  }

  /** A row is superseded by opening exactly when a live row of the same key on opening comes before it. */
  lemma SupersededExactlyWhen(t: Table, h: Hashes, addedIntent: bool, indexed: bool, now: real, id: string)
    requires Keyed(t) && HashesOk(h) && (indexed && !addedIntent ==> Unique(t)) && id in t && Live(t[id])
    ensures var o := Opened(t, PolicyOf(h), addedIntent, indexed, now);
      id in o && (!Live(o[id]) <==>
        exists j :: j in t && Rivals(t[j], t[id], h) && Precedes(RecoverRow(t[j], now), RecoverRow(t[id], now)))
  {
    var normal := Normalised(t, PolicyOf(h), now);
    PolicyIsOk(h);
    OpeningDeduplicates(t, PolicyOf(h), addedIntent, indexed, now);
    NormalisedRows(t, h, now);
    NormalKeepsProgress(t[id], h, now);
    LosesToSome(normal, now, id);
    forall j | j in t
      ensures BeatenBy(normal[id], normal[j]) <==>
        Rivals(t[j], t[id], h) && Precedes(RecoverRow(t[j], now), RecoverRow(t[id], now))
    {
      BeatenOnOpening(t[id], t[j], h, now);
    }
  }

  lemma NormalisedRows(t: Table, h: Hashes, now: real)
    ensures Normalised(t, PolicyOf(h), now) == map id | id in t :: NormalOf(t[id], h, now)
  {
  }

  lemma OpenedRow(t: Table, h: Hashes, addedIntent: bool, indexed: bool, now: real, id: string)
    requires Keyed(t) && HashesOk(h) && (indexed && !addedIntent ==> Unique(t)) && id in t
    ensures var o, normal := Opened(t, PolicyOf(h), addedIntent, indexed, now), NormalOf(t[id], h, now);
      id in o
      && (o[id] == normal || (Live(normal) && o[id] == normal.(status := Superseded, updatedAt := now)))
  {
    PolicyIsOk(h);
    OpeningDeduplicates(t, PolicyOf(h), addedIntent, indexed, now);
    NormalisedRows(t, h, now);
  }

  /** `r'` says what `r` says, its chat spelled one way and what was missing filled in, and was tried as often. */
  predicate Migrated(r: Row, r': Row, h: Hashes) {
    && r'.id == r.id && r'.chat == KeyOf(r.chat) && r'.msgId == r.msgId && r'.action == r.action
    && r'.intent == (if r.msgId == 0 && r.intent == "" then h.ofPayload(r.payload) else r.intent)
    && r'.randomId == (if r.randomId != 0 then r.randomId else h.randomOf(r.id))
    && r'.payload == r.payload && r'.messageIds == r.messageIds && r'.createdAt == r.createdAt
    && r'.attempts == r.attempts && r'.maxAttempts == r.maxAttempts
  }

  /** Abandoned deliveries wait again, due at once; rows that lose to another are superseded now; all else stays. */
  predicate StatusOnOpening(r: Row, r': Row, now: real) {
    if r.status == Sending && r.updatedAt + 120.0 <= now then
      (r'.status == Retry || r'.status == Superseded) && r'.nextAt == now && r'.updatedAt == now
    else
      && r'.nextAt == r.nextAt && (r'.status == r.status || r'.status == Superseded)
      && r'.updatedAt == if r'.status == r.status then r.updatedAt else now
  }

  /** What opening does to a row, but for the question whether it is superseded (`SupersededExactlyWhen`). */
  lemma OpenedExactly(t: Table, h: Hashes, addedIntent: bool, indexed: bool, now: real, id: string)
    requires Keyed(t) && HashesOk(h) && (indexed && !addedIntent ==> Unique(t)) && id in t
    ensures var o := Opened(t, PolicyOf(h), addedIntent, indexed, now);
      id in o && Migrated(t[id], o[id], h) && StatusOnOpening(t[id], o[id], now)
  {
    OpenedRow(t, h, addedIntent, indexed, now, id);
  }

  /**
   * A standalone post of the old schema stays live on opening, unless another live standalone row
   * of its chat and action has a payload with the same digest or already carries that digest as
   * its intent: posts with different digests are never merged.
   */
  lemma DistinctPostsStayDistinct(t: Table, h: Hashes, addedIntent: bool, indexed: bool, now: real, id: string)
    requires Keyed(t) && HashesOk(h) && (indexed && !addedIntent ==> Unique(t)) && id in t && Live(t[id])
    requires t[id].msgId == 0 && t[id].intent == ""
    ensures var o := Opened(t, PolicyOf(h), addedIntent, indexed, now);
      && id in o
      && (Live(o[id]) || exists j ::
            (j in t && j != id && Live(t[j]) && t[j].msgId == 0
             && KeyOf(t[j].chat) == KeyOf(t[id].chat) && t[j].action == t[id].action
             && (if t[j].intent == "" then h.ofPayload(t[j].payload) else t[j].intent) == h.ofPayload(t[id].payload)))
  {
    SupersededExactlyWhen(t, h, addedIntent, indexed, now, id);
    if j :| j in t && Rivals(t[j], t[id], h) && Precedes(RecoverRow(t[j], now), RecoverRow(t[id], now)) {
      RivalOfPost(t[j], t[id], h);
    }
  }

  lemma RivalOfPost(other: Row, post: Row, h: Hashes)
    requires Rivals(other, post, h) && post.msgId == 0 && post.intent == ""
    ensures Live(other) && other.id != post.id && other.msgId == 0
    ensures KeyOf(other.chat) == KeyOf(post.chat) && other.action == post.action
    ensures (if other.intent == "" then h.ofPayload(other.payload) else other.intent) == h.ofPayload(post.payload)
  {
    assert KeyOnOpening(other, h) == KeyOnOpening(post, h);
  }

  // ----- Pruning ---------------------------------------------------------------------------------

  const RETENTION_SECONDS := 2592000.0
  const MAX_TERMINAL_ROWS := 5000

  /** Which of the terminal rows, newest first, are kept. */
  function Retained(order: seq<Row>, now: real, kept: nat): set<string> {
    if order == [] then {}
    else if order[0].updatedAt >= now - RETENTION_SECONDS && kept < MAX_TERMINAL_ROWS
    then {order[0].id} + Retained(order[1..], now, kept + 1)
    else Retained(order[1..], now, kept)
  }

  function Pruned(t: Table, order: seq<Row>, now: real): Table {
    var kept := Retained(order, now, 0);
    map id | id in t && (!Terminal(t[id]) || id in kept) :: t[id]
  }

  lemma {:induction false} RetainedIsBounded(order: seq<Row>, now: real, kept: nat)
    requires kept <= MAX_TERMINAL_ROWS
    ensures |Retained(order, now, kept)| + kept <= MAX_TERMINAL_ROWS
    ensures forall id :: id in Retained(order, now, kept) ==>
      exists i :: 0 <= i < |order| && order[i].id == id && order[i].updatedAt >= now - RETENTION_SECONDS
    decreases |order|
  {
    if order != [] {
      var rest := if order[0].updatedAt >= now - RETENTION_SECONDS && kept < MAX_TERMINAL_ROWS then kept + 1 else kept;
      RetainedIsBounded(order[1..], now, rest);
      forall id | id in Retained(order[1..], now, rest)
        ensures exists i :: 0 <= i < |order| && order[i].id == id && order[i].updatedAt >= now - RETENTION_SECONDS
      {
        var i :| 0 <= i < |order[1..]| && order[1..][i].id == id && order[1..][i].updatedAt >= now - RETENTION_SECONDS;
        assert order[i + 1].id == id;
      }
    }
  }

  predicate Newer(a: Row, b: Row) {
    a.updatedAt > b.updatedAt || (a.updatedAt == b.updatedAt && a.createdAt >= b.createdAt)
  }

  /** `order` lists the terminal rows, newest first. */
  ghost predicate NewestFirst(order: seq<Row>, t: Table) {
    && (forall i :: 0 <= i < |order| ==> order[i].id in t && t[order[i].id] == order[i] && Terminal(order[i]))
    && (forall id :: id in t && Terminal(t[id]) ==> t[id] in order)
    && (forall i, j :: 0 <= i < j < |order| ==> order[i].id != order[j].id && Newer(order[i], order[j]))
  }

  /** Pruning bounds the terminal rows by age and number and never touches a row still to be sent. */
  lemma PruningBoundsTerminalRows(t: Table, order: seq<Row>, now: real)
    requires NewestFirst(order, t)
    ensures var p := Pruned(t, order, now);
      && (forall id :: id in t && !Terminal(t[id]) ==> id in p && p[id] == t[id])
      && (forall id :: id in p ==> id in t && p[id] == t[id])
      && (forall id :: id in p && Terminal(p[id]) ==> p[id].updatedAt >= now - RETENTION_SECONDS)
      && |set id | id in p && Terminal(p[id])| <= MAX_TERMINAL_ROWS
  {
    RetainedIsBounded(order, now, 0);
    var p, kept := Pruned(t, order, now), Retained(order, now, 0);
    var terminal := set id | id in p && Terminal(p[id]);
    assert terminal <= kept;
    Subset(terminal, kept);
    forall id | id in p && Terminal(p[id]) ensures p[id].updatedAt >= now - RETENTION_SECONDS {
      var i :| 0 <= i < |order| && order[i].id == id && order[i].updatedAt >= now - RETENTION_SECONDS;
    }
  }

  /** The rows of a listing that are kept: those recent enough among the first that still have room. */
  lemma {:induction false} RetainedExactly(order: seq<Row>, now: real, kept: nat, i: nat)
    requires forall a, b :: 0 <= a < b < |order| ==> order[a].id != order[b].id && Newer(order[a], order[b])
    requires i < |order|
    ensures order[i].id in Retained(order, now, kept) <==> order[i].updatedAt >= now - 2592000.0 && kept + i < 5000
    decreases |order|
  {
    var keep := order[0].updatedAt >= now - RETENTION_SECONDS && kept < MAX_TERMINAL_ROWS;
    var rest := if keep then kept + 1 else kept;
    NoneRetained(order[1..], now, rest, order[0].id);
    if i > 0 {
      RetainedExactly(order[1..], now, rest, i - 1);
      assert Newer(order[0], order[i]);
    }
  }

  lemma {:induction false} NoneRetained(order: seq<Row>, now: real, kept: nat, id: string)
    requires forall i :: 0 <= i < |order| ==> order[i].id != id
    ensures id !in Retained(order, now, kept)
    decreases |order|
  {
    if order != [] {
      NoneRetained(order[1..], now, kept, id);
      NoneRetained(order[1..], now, kept + 1, id);
    }
  }

  /**
   * Pruning deletes exactly the terminal rows that are older than 30 days or behind the newest 5000;
   * so a row acknowledged lately stays to answer retries.
   */
  lemma PrunedExactly(t: Table, order: seq<Row>, now: real, i: nat)
    requires NewestFirst(order, t) && i < |order|
    ensures order[i].id in Pruned(t, order, now) <==> order[i].updatedAt >= now - 2592000.0 && i < 5000
    ensures order[i].id in Pruned(t, order, now) ==> Pruned(t, order, now)[order[i].id] == t[order[i].id]
  {
    RetainedExactly(order, now, 0, i);
  }

  lemma PruningKeepsUnique(t: Table, order: seq<Row>, now: real)
    requires Unique(t) && Keyed(t)
    ensures Unique(Pruned(t, order, now)) && Keyed(Pruned(t, order, now))
  {
  }

  // ----- Enqueue ---------------------------------------------------------------------------------

  function IntentOf(h: Hashes, msgId: nat, payload: string, request: string): string {
    if msgId > 0 then "" else if Strip(request) != "" then h.ofRequest(Strip(request)) else h.ofPayload(payload)
  }

  function NewRow(h: Hashes, k: Natural, payload: string, maxAttempts: nat, now: real): Row {
    var id := h.idOf(k);
    Row(id, k.chat, k.msgId, k.action, k.intent, h.randomOf(id), payload, Pending, 0, maxAttempts, now, now, now, [])
  }

  function KeyFor(h: Hashes, chat: string, msgId: int, action: Action, payload: string, request: string): Natural {
    var clean := Max(0, msgId);
    Natural(Canonical(chat), clean, action, IntentOf(h, clean, payload, request))
  }

  /** The live row of the key, else the row filed under the key's id, else a new one. */
  ghost function EnqueueIn(t: Table, h: Hashes, k: Natural, payload: string, maxAttempts: nat, now: real)
    : (Table, Row)
  {
    if live :| live in t && Live(t[live]) && NaturalOf(t[live]) == k then (t, t[live])
    else if h.idOf(k) in t then (t, t[h.idOf(k)])
    else
      var r := NewRow(h, k, payload, maxAttempts, now);
      (t[r.id := r], r)
  }
}
