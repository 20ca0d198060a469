/** The group outbox object: a constructor that migrates, and the statements of enqueue and deliver. */
module GroupStore {
  import opened Prelude
  import opened Sorting
  import opened Tables
  import opened GroupActions
  import opened GroupRuns

  function IdOf(): Row -> string { (r: Row) => r.id }

  function ByNewest(): (Row, Row) -> bool { (a: Row, b: Row) => Newer(a, b) }

  function IsTerminal(): Row -> bool { (r: Row) => Terminal(r) }

  function Superseding(now: real): Row -> Row { (r: Row) => r.(status := Status.Superseded, updatedAt := now) }

  function Always(): Row -> bool { (r: Row) => true }

  // ----- Duplicates -------------------------------------------------------------------------------

  function ByRank(): (Row, Row) -> bool { (a: Row, b: Row) => Precedes(a, b) }

  function InGroup(k: Natural): Row -> bool { (r: Row) => Live(r) && NaturalOf(r) == k }

  lemma ByRankTotal()
    ensures TotalOrder(ByRank())
  {
    forall a: Row, b: Row, c: Row
      ensures ByRank()(a, b) || ByRank()(b, a)
      ensures ByRank()(a, b) && ByRank()(b, c) ==> ByRank()(a, c)
    {
      PrecedesOrders(a, b, c);
    }
  }

  /** `group` holds the live rows of one natural key, best first. */
  ghost predicate IsGroup(t: Table, group: seq<Row>, k: Natural) {
    && (forall i :: 0 <= i < |group| ==> group[i].id in t && t[group[i].id] == group[i] && InGroup(k)(group[i]))
    && (forall id :: id in t && InGroup(k)(t[id]) ==> t[id] in group)
    && (forall i, j :: 0 <= i < j < |group| ==> group[i].id != group[j].id && Precedes(group[i], group[j]))
  }

  lemma SortedGroup(t: Table, rs: seq<Row>, k: Natural)
    requires Lists(rs, t, IdOf())
    ensures IsGroup(t, Sort(Filter(rs, InGroup(k)), ByRank()), k)
  {
    var members := Filter(rs, InGroup(k));
    var group := Sort(members, ByRank());
    ByRankTotal();
    SortIsSortedPermutation(members, ByRank());
    SameMembers(group, members);
    FilterKeepsDistinct(rs, InGroup(k), IdOf());
    PermutationKeepsDistinct(group, members, IdOf());
    forall i | 0 <= i < |group| ensures group[i].id in t && t[group[i].id] == group[i] && InGroup(k)(group[i]) {
      assert group[i] in members;
      FilterMember(rs, InGroup(k), group[i]);
    }
    forall id | id in t && InGroup(k)(t[id]) ensures t[id] in group {
      var i :| 0 <= i < |rs| && IdOf()(rs[i]) == id;
      FilterMember(rs, InGroup(k), rs[i]);
    }
    forall i, j | 0 <= i < j < |group| ensures group[i].id != group[j].id && Precedes(group[i], group[j]) {
      assert IdOf()(group[i]) != IdOf()(group[j]) && ByRank()(group[i], group[j]);
    }
  }

  /** In a sorted group everyone but the first loses. */
  lemma LosersFollow(t: Table, group: seq<Row>, k: Natural, i: nat)
    requires Keyed(t) && IsGroup(t, group, k) && i < |group|
    ensures Loses(t, group[i]) <==> i > 0
  {
    if i > 0 {
      assert BeatenBy(group[i], t[group[0].id]);
    } else {
      forall id | id in t
        ensures !BeatenBy(group[0], t[id])
      {
        if InGroup(k)(t[id]) {
          var j :| 0 <= j < |group| && group[j] == t[id];
          PrecedesOrders(group[0], t[id], t[id]);
        }
      }
    }
  }

  /** The table once the groups of the keys in `done` have been dealt with. */
  function DedupedFor(t: Table, done: set<Natural>, now: real): Table {
    map id | id in t :: if NaturalOf(t[id]) in done && Loses(t, t[id]) then Superseding(now)(t[id]) else t[id]
  }

  /** The table with the first `n` rows of a group as they are and the next ones up to `m` superseded. */
  ghost predicate RestSuperseded(before: Table, after: Table, group: seq<Row>, m: nat, now: real)
    requires m <= |group|
  {
    && after.Keys == before.Keys
    && (forall i :: 0 <= i < |group| ==>
          (group[i].id in after && after[group[i].id] == if 1 <= i < m then Superseding(now)(group[i]) else group[i]))
    && forall id :: id in before && (forall i :: 0 <= i < |group| ==> group[i].id != id) ==> after[id] == before[id]
  }

  lemma OneMoreGroup(t: Table, done: set<Natural>, group: seq<Row>, k: Natural, after: Table, now: real)
    requires Keyed(t) && IsGroup(t, group, k) && k !in done
    requires RestSuperseded(DedupedFor(t, done, now), after, group, |group|, now)
    ensures after == DedupedFor(t, done + {k}, now)
  {
    var before, goal := DedupedFor(t, done, now), DedupedFor(t, done + {k}, now);
    forall id | id in t
      ensures after[id] == goal[id]
    {
      if InGroup(k)(t[id]) {
        var i :| 0 <= i < |group| && group[i] == t[id];
        LosersFollow(t, group, k, i);
      } else {
        forall i | 0 <= i < |group| ensures group[i].id != id { assert t[group[i].id] == group[i]; }
      }
    }
  }

  lemma DedupedForAll(t: Table, done: set<Natural>, now: real)
    requires forall id :: id in t && Live(t[id]) ==> NaturalOf(t[id]) in done
    ensures DedupedFor(t, done, now) == Deduplicated(t, now)
  {
  }

  lemma MappingIsRewriting(t: Table, rs: seq<Row>, f: Row -> Row)
    requires Lists(rs, t, IdOf())
    ensures Rewritten(t, rs, |rs|, IdOf(), Always(), f) == MapRows(t, f)
  {
    RewrittenAll(t, rs, IdOf(), Always(), f);
  }

  lemma ByNewestTotal()
    ensures TotalOrder(ByNewest())
  {
  }

  /** Sorting the terminal rows of a listing gives the order pruning works in. */
  lemma TerminalOrder(t: Table, rs: seq<Row>)
    requires Lists(rs, t, IdOf())
    ensures NewestFirst(Sort(Filter(rs, IsTerminal()), ByNewest()), t)
  {
    var terminal := Filter(rs, IsTerminal());
    var order := Sort(terminal, ByNewest());
    ByNewestTotal();
    SortIsSortedPermutation(terminal, ByNewest());
    SameMembers(order, terminal);
    FilterKeepsDistinct(rs, IsTerminal(), IdOf());
    PermutationKeepsDistinct(order, terminal, IdOf());
    forall i | 0 <= i < |order| ensures order[i].id in t && t[order[i].id] == order[i] && Terminal(order[i]) {
      assert order[i] in terminal;
      FilterMember(rs, IsTerminal(), order[i]);
    }
    forall id | id in t && Terminal(t[id]) ensures t[id] in order {
      var i :| 0 <= i < |rs| && IdOf()(rs[i]) == id;
      FilterMember(rs, IsTerminal(), rs[i]);
    }
    forall i, j | 0 <= i < j < |order| ensures order[i].id != order[j].id && Newer(order[i], order[j]) {
      assert IdOf()(order[i]) != IdOf()(order[j]) && ByNewest()(order[i], order[j]);
    }
  }

  /** Deleting the rows of a listing that are not retained, one after the other. */
  function DeletedFrom(t: Table, order: seq<Row>, now: real, retained: nat): Table
    decreases |order|
  {
    if order == [] then t
    else if order[0].updatedAt >= now - RETENTION_SECONDS && retained < MAX_TERMINAL_ROWS
    then DeletedFrom(t, order[1..], now, retained + 1)
    else DeletedFrom(t - {order[0].id}, order[1..], now, retained)
  }

  predicate Listed(order: seq<Row>, id: string) { exists i :: 0 <= i < |order| && order[i].id == id }

  /** What is left: the rows not listed, and the retained ones. */
  lemma {:induction false} DeletedFromIs(t: Table, order: seq<Row>, now: real, retained: nat, id: string)
    requires forall i, j :: 0 <= i < j < |order| ==> order[i].id != order[j].id
    ensures var d := DeletedFrom(t, order, now, retained);
      && (id in d <==> id in t && (!Listed(order, id) || id in Retained(order, now, retained)))
      && (id in d ==> d[id] == t[id])
    ensures id in Retained(order, now, retained) ==> Listed(order, id)
    decreases |order|
  {
    if order != [] {
      var tail := order[1..];
      var keep := order[0].updatedAt >= now - RETENTION_SECONDS && retained < MAX_TERMINAL_ROWS;
      assert forall i :: 0 <= i < |tail| ==> tail[i] == order[i + 1];
      DeletedFromIs(if keep then t else t - {order[0].id}, tail, now, if keep then retained + 1 else retained, id);
      ListedTail(order, id);
    }
  }

  lemma ListedTail(order: seq<Row>, id: string)
    requires order != []
    ensures Listed(order, id) <==> order[0].id == id || Listed(order[1..], id)
  {
    var tail := order[1..];
    if i :| 0 <= i < |order| && order[i].id == id {
      if i > 0 { assert tail[i - 1].id == id; }
    }
    if i :| 0 <= i < |tail| && tail[i].id == id { assert order[i + 1].id == id; }
  }

  lemma DeletingIsPruning(t: Table, order: seq<Row>, now: real)
    requires Keyed(t) && NewestFirst(order, t)
    ensures DeletedFrom(t, order, now, 0) == Pruned(t, order, now)
  {
    forall id
      ensures id in DeletedFrom(t, order, now, 0) <==> id in Pruned(t, order, now)
      ensures id in DeletedFrom(t, order, now, 0) ==> DeletedFrom(t, order, now, 0)[id] == t[id]
    {
      DeletedFromIs(t, order, now, 0, id);
      if id in t && Terminal(t[id]) {
        var j :| 0 <= j < |order| && order[j] == t[id];
        assert order[j].id == id;
      }
    }
  }

  /** How a delivery begins. */
  datatype Start = Missing | Already(ids: seq<int>) | DeadLettered | InFlight | Deferred | Rejected | Started(row: Row)

  const PRUNE_INTERVAL := 21600.0

  /** The last pruning is less than six hours ago, and not in the future of a clock set back. */
  predicate TooSoon(last: Option<real>, now: real): (soon: bool)
    ensures soon <==> last.Some? && last.value <= now < last.value + 21600.0
  {
    last.Some? && 0.0 <= now - last.value < PRUNE_INTERVAL
  }

  /** `pruned` is `t` after pruning. */
  ghost predicate PrunedFrom(t: Table, pruned: Table, now: real) {
    exists order :: NewestFirst(order, t) && pruned == Pruned(t, order, now)
  }

  lemma PrunedStaysNormal(t: Table, pruned: Table, p: Policy, now: real)
    requires Keyed(t) && Unique(t) && NormalTable(t, p)
    ensures pruned == t || PrunedFrom(t, pruned, now) ==> Keyed(pruned) && Unique(pruned) && NormalTable(pruned, p)
  {
    if PrunedFrom(t, pruned, now) {
      var order :| NewestFirst(order, t) && pruned == Pruned(t, order, now);
      PruningKeepsUnique(t, order, now);
    }
  }

  class GroupActionOutbox {
    var table: Table
    var lastPrune: Option<real>
    const hashes: Hashes
    const maxAttempts: nat
    const base: real

    ghost predicate Valid()
      reads this
    {
      Keyed(table) && maxAttempts >= 1
    }

    /** Opening a database: recover, migrate, enforce the unique key, prune if it is time. */
    constructor (db: Table, h: Hashes, maxAttempts: int, base: real, addedIntent: bool, indexed: bool,
        lastPrune: Option<real>, now: real)
      requires Keyed(db) && HashesOk(h) && (indexed && !addedIntent ==> Unique(db))
      ensures Valid() && hashes == h
      ensures this.maxAttempts == if maxAttempts < 1 then 1 else maxAttempts
      ensures this.base == if base < 0.05 then 0.05 else base
      ensures var o := Opened(db, PolicyOf(h), addedIntent, indexed, now);
        if TooSoon(lastPrune, now) then table == o && this.lastPrune == lastPrune
        else this.lastPrune == Some(now) && PrunedFrom(o, table, now)
      ensures Unique(table) && NormalTable(table, PolicyOf(h))
    {
      table, this.lastPrune, hashes := db, lastPrune, h;
      this.maxAttempts, this.base := Max(1, maxAttempts), if base >= 0.05 then base else 0.05;
      new;
      Migrate(addedIntent, indexed, now);
      PolicyIsOk(h);
      OpeningMigrates(db, PolicyOf(h), addedIntent, indexed, now);
      MaybePrune(now);
      PrunedStaysNormal(Opened(db, PolicyOf(h), addedIntent, indexed, now), table, PolicyOf(h), now);
    }

    /** Recover, then rewrite and deduplicate if the index has to be rebuilt, else only give out random ids. */
    method Migrate(addedIntent: bool, indexed: bool, now: real)
      requires Valid() && HashesOk(hashes) && (indexed && !addedIntent ==> Unique(table))
      modifies this`table
      ensures table == Opened(old(table), PolicyOf(hashes), addedIntent, indexed, now) && Keyed(table)
    {
      ghost var before, p := table, PolicyOf(hashes);
      PolicyIsOk(hashes);
      RecoveringKeeps(before, p, now);
      OpeningMigrates(before, p, addedIntent, indexed, now);
      table := MapRows(table, Recovering(now));
      NormalizingNormalizes(table, p);
      var rebuild := NeedsRebuild(table, PolicyOf(hashes), addedIntent, indexed);
      NormalizeRows(if rebuild then PolicyOf(hashes).norm else PolicyOf(hashes).number);
      if rebuild { SupersedeDuplicates(now); }
    }

    /** One UPDATE. */
    method Put(id: string, r: Row)
      modifies this`table
      ensures table == old(table)[id := r]
    {
      table := table[id := r];
    }

    /** Rewrite each row's chat, intent and random id where they are not yet in order. */
    method NormalizeRows(f: Row -> Row)
      requires Valid()
      modifies this`table
      ensures table == MapRows(old(table), f)
    {
      ghost var before := table;
      var rs := ListRows(table, IdOf());
      for i := 0 to |rs|
        invariant table == Rewritten(before, rs, i, IdOf(), Always(), f)
      {
        Put(rs[i].id, f(rs[i]));
      }
      MappingIsRewriting(before, rs, f);
    }

    /** Group by group: sort the live rows of a natural key, keep the first, supersede the rest. */
    method SupersedeDuplicates(now: real)
      requires Valid()
      modifies this`table
      ensures table == Deduplicated(old(table), now)
    {
      ghost var before, done := table, {};
      var rs := ListRows(table, IdOf());
      var keys := set i | 0 <= i < |rs| && Live(rs[i]) :: NaturalOf(rs[i]);
      assert table == DedupedFor(before, done, now);
      while keys != {}
        invariant table == DedupedFor(before, done, now) && done !! keys
        invariant forall i :: 0 <= i < |rs| && Live(rs[i]) ==> NaturalOf(rs[i]) in done + keys
        decreases |keys|
      {
        var k :| k in keys;
        SortedGroup(before, rs, k);
        var group := Sort(Filter(rs, InGroup(k)), ByRank());
        SupersedeRest(group, now);
        OneMoreGroup(before, done, group, k, table, now);
        keys, done := keys - {k}, done + {k};
      }
      forall id | id in before && Live(before[id]) ensures NaturalOf(before[id]) in done {
        var i :| 0 <= i < |rs| && IdOf()(rs[i]) == id;
      }
      DedupedForAll(before, done, now);
    }

    /** Supersede all rows of a group but the first. */
    method SupersedeRest(group: seq<Row>, now: real)
      requires forall i :: 0 <= i < |group| ==> group[i].id in table && table[group[i].id] == group[i]
      requires forall i, j :: 0 <= i < j < |group| ==> group[i].id != group[j].id
      modifies this`table
      ensures RestSuperseded(old(table), table, group, |group|, now)
    {
      for i := 0 to |group|
        invariant RestSuperseded(old(table), table, group, i, now)
      {
        if i > 0 { Put(group[i].id, group[i].(status := Status.Superseded, updatedAt := now)); }
      }
    }

    /** At most every six hours: delete terminal rows that are too old or too many. */
    method MaybePrune(now: real)
      requires Valid()
      modifies this
      ensures if TooSoon(old(lastPrune), now) then table == old(table) && lastPrune == old(lastPrune)
              else lastPrune == Some(now) && PrunedFrom(old(table), table, now)
    {
      if TooSoon(lastPrune, now) { return; }
      var rs := ListRows(table, IdOf());
      TerminalOrder(table, rs);
      var order := Sort(Filter(rs, IsTerminal()), ByNewest());
      table := DeleteUnretained(table, order, now);
      lastPrune := Some(now);
    }

    static method DeleteUnretained(t: Table, order: seq<Row>, now: real) returns (kept: Table)
      requires Keyed(t) && NewestFirst(order, t)
      ensures kept == Pruned(t, order, now)
    {
      kept := t;
      var retained := 0;
      for i := 0 to |order|
        invariant DeletedFrom(kept, order[i..], now, retained) == DeletedFrom(t, order, now, 0)
      {
        FirstAndRest(order, i);
        if order[i].updatedAt >= now - RETENTION_SECONDS && retained < MAX_TERMINAL_ROWS {
          retained := retained + 1;
        } else {
          kept := kept - {order[i].id};
        }
      }
      DeletingIsPruning(t, order, now);
    }

    /** The live row of a natural key, if there is one. */
    method FindLive(k: Natural) returns (found: Option<Row>)
      requires Valid()
      ensures found.Some? ==>
        (found.value.id in table && table[found.value.id] == found.value
         && Live(found.value) && NaturalOf(found.value) == k)
      ensures found.None? ==> forall id :: id in table && Live(table[id]) ==> NaturalOf(table[id]) != k
    {
      var rs := ListRows(table, IdOf());
      for i := 0 to |rs|
        invariant forall j :: 0 <= j < i && Live(rs[j]) ==> NaturalOf(rs[j]) != k
      {
        if Live(rs[i]) && NaturalOf(rs[i]) == k { return Some(rs[i]); }
      }
      forall id | id in table && Live(table[id]) ensures NaturalOf(table[id]) != k {
        var j :| 0 <= j < |rs| && IdOf()(rs[j]) == id;
      }
      found := None;
    }

    method Enqueue(chat: string, msgId: int, action: Action, payload: string, request: string, now: real)
        returns (r: Row)
      requires Valid() && Unique(table)
      modifies this`table
      ensures Valid()
      ensures (table, r) == EnqueueIn(old(table), hashes, KeyFor(hashes, chat, msgId, action, payload, request),
          payload, maxAttempts, now)
    {
      var k := KeyFor(hashes, chat, msgId, action, payload, request);
      var existing := FindLive(k);
      if existing.Some? { return existing.value; }
      var id := hashes.idOf(k);
      if id in table { return table[id]; }
      r := NewRow(hashes, k, payload, maxAttempts, now);
      table := table[id := r];
    }

    /** The transaction before the sender call. */
    method BeginDelivery(id: string, now: real) returns (s: Start)
      requires Valid()
      modifies this`table
      ensures Valid()
      ensures s.Started? <==> CanBegin(old(table), id, now)
      ensures if s.Started? then s.row == Begun(old(table)[id], now) && table == old(table)[id := s.row]
              else table == old(table)
      ensures s.Already? <==> id in old(table) && old(table)[id].status == Acked
      ensures s.Already? ==> s.ids == old(table)[id].messageIds
      ensures s.DeadLettered? <==> id in old(table) && old(table)[id].status == Dead
      ensures s.Missing? <==> id !in old(table)
      ensures s.InFlight? <==> id in old(table) && old(table)[id].status == Sending
      ensures s.Deferred? <==>
        (id in old(table) && old(table)[id].status in {Status.Pending, Retry, Superseded}
         && old(table)[id].nextAt > now)
    {
      if id !in table { return Missing; }
      var row := table[id];
      if row.status == Acked { return Already(row.messageIds); }
      if row.status == Dead { return DeadLettered; }
      if row.status == Sending { return InFlight; }
      if row.nextAt > now { return Deferred; }
      if Conflicts(table, Begun(row, now)) { return Rejected; }
      table := table[id := Begun(row, now)];
      s := Started(table[id]);
    }

    method FailDelivery(id: string, began: real)
      requires Valid()
      modifies this`table
      ensures Valid()
      ensures table == if id in old(table) then Write(old(table), Failed(old(table)[id], began, base)) else old(table)
    {
      if id !in table { return; }
      var updated := Failed(table[id], began, base);
      if !Conflicts(table, updated) { table := table[id := updated]; }
    }

    method AckDelivery(id: string, ids: seq<int>, now: real)
      requires Valid()
      modifies this`table
      ensures Valid()
      ensures table ==
        if id in old(table) then Write(old(table), Acknowledged(old(table)[id], ids, now)) else old(table)
    {
      if id !in table { return; }
      var updated := Acknowledged(table[id], ids, now);
      if !Conflicts(table, updated) { table := table[id := updated]; }
    }

    /** One delivery with a sender that answers `ids`, or raises. */
    method Deliver(id: string, ids: Option<seq<int>>, now: real, later: real) returns (s: Start)
      requires Valid()
      modifies this`table
      ensures Valid()
      ensures s.Started? <==> CanBegin(old(table), id, now)
      ensures !s.Started? ==> table == old(table)
      ensures s.Already? <==> id in old(table) && old(table)[id].status == Acked
      ensures s.Already? ==> s.ids == old(table)[id].messageIds
      ensures s.DeadLettered? <==> id in old(table) && old(table)[id].status == Dead
      ensures s.Started? ==> s.row == Begun(old(table)[id], now)
      ensures s.Started? ==>
        var begun := Begun(old(table)[id], now); var t := old(table)[id := begun];
        table == Write(t, if ids.Some? then Acknowledged(begun, ids.value, later) else Failed(begun, now, base))
    {
      s := BeginDelivery(id, now);
      if !s.Started? { return; }
      if ids.Some? { AckDelivery(id, ids.value, later); } else { FailDelivery(id, now); }
    }
  }
}
