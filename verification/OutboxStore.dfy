/** The outbox object: every operation rewrites records of one store under a lock. */
module OutboxStore {
  import opened Prelude
  import opened Sorting
  import opened Tables
  import opened Text
  import opened Delivery
  import opened Outbox
  import opened Dispatching

  datatype Result<T> = Ok(value: T) | KeyError | ValueError | Corruption

  function ByAge(): (Record, Record) -> bool { (a: Record, b: Record) => Older(a, b) }

  lemma ByAgeTotal()
    ensures TotalOrder(ByAge())
  {
    forall a: Record, b: Record ensures ByAge()(a, b) || ByAge()(b, a) { LexTotal(a.id, b.id); }
    forall a: Record, b: Record, c: Record | ByAge()(a, b) && ByAge()(b, c) ensures ByAge()(a, c) {
      if LexLe(a.id, b.id) && LexLe(b.id, c.id) { LexTransitive(a.id, b.id, c.id); }
    }
  }

  function IdOf(): Record -> string { (r: Record) => r.id }

  lemma SortedLists(rs: seq<Record>, store: Store)
    requires Lists(rs, store, IdOf())
    ensures Lists(Sort(rs, ByAge()), store, IdOf()) && Sorted(Sort(rs, ByAge()), ByAge())
  {
    var s := Sort(rs, ByAge());
    ByAgeTotal();
    SortIsSortedPermutation(rs, ByAge());
    SameMembers(s, rs);
    PermutationKeepsDistinct(s, rs, IdOf());
    PermutationLists(s, rs, store, IdOf());
  }

  lemma PermutationLists<K(!new), V>(s: seq<V>, rs: seq<V>, m: map<K, V>, key: V -> K)
    requires Lists(rs, m, key) && DistinctBy(s, key) && forall r :: r in s <==> r in rs
    ensures Lists(s, m, key)
  {
    forall i | 0 <= i < |s| ensures key(s[i]) in m && m[key(s[i])] == s[i] {
      assert s[i] in rs;
    }
    forall k | k in m ensures exists i :: 0 <= i < |s| && key(s[i]) == k {
      var i :| 0 <= i < |rs| && key(rs[i]) == k;
      assert rs[i] in s;
    }
  }

  function Purgeable(before: Option<real>): Record -> bool {
    (r: Record) => r.state == Acked && (before.None? || (r.ackedAt.Some? && r.ackedAt.value < before.value))
  }

  function AtLimit(cfg: Config, routes: Option<set<string>>): Record -> bool {
    (r: Record) => Retryable(r) && Routed(routes, r) && Exhausted(r, cfg)
  }

  function Burying(cfg: Config, now: real): Record -> Record { (r: Record) => Buried(r, cfg, now) }

  function IsStale(cfg: Config, force: bool, now: real): Record -> bool { (r: Record) => Stale(r, cfg, force, now) }

  function Abandoning(cfg: Config, now: real): Record -> Record { (r: Record) => Abandoned(r, cfg, now) }

  lemma SweepIsRewriting(before: Store, rs: seq<Record>, cfg: Config, routes: Option<set<string>>, now: real)
    requires Lists(rs, before, IdOf())
    ensures Rewritten(before, rs, |rs|, IdOf(), AtLimit(cfg, routes), Burying(cfg, now)) ==
      Swept(before, cfg, routes, now)
  {
    RewrittenAll(before, rs, IdOf(), AtLimit(cfg, routes), Burying(cfg, now));
  }

  lemma SweptKeyed(store: Store, cfg: Config, routes: Option<set<string>>, now: real)
    requires Keyed(store)
    ensures Keyed(Swept(store, cfg, routes, now))
  {
  }

  lemma RecoveryIsRewriting(before: Store, rs: seq<Record>, cfg: Config, force: bool, now: real)
    requires Lists(rs, before, IdOf())
    ensures Rewritten(before, rs, |rs|, IdOf(), IsStale(cfg, force, now), Abandoning(cfg, now)) ==
      Recovered(before, cfg, force, now)
  {
    RewrittenAll(before, rs, IdOf(), IsStale(cfg, force, now), Abandoning(cfg, now));
  }

  lemma PurgeIsDeleting(start: Store, rs: seq<Record>, before: Option<real>)
    requires Lists(rs, start, IdOf())
    ensures Deleted(start, rs, |rs|, IdOf(), Purgeable(before)) == Purged(start, before)
  {
    DeletedAll(start, rs, IdOf(), Purgeable(before));
  }

  function Due(cfg: Config, routes: Option<set<string>>, now: real): Record -> bool {
    (r: Record) => IsDue(r, cfg, routes, now)
  }

  /** The first of the sorted due list is the record the claim order picks. */
  lemma DueListed(cfg: Config, before: Store, rs: seq<Record>, routes: Option<set<string>>, now: real)
    requires Keyed(before) && Lists(rs, before, IdOf())
    ensures var due, ids := Filter(rs, Due(cfg, routes, now)), DueIds(before, cfg, routes, now);
      && (due == [] <==> ids == {})
      && (due != [] ==>
            var sorted := Sort(due, BySooner());
            sorted != [] && sorted[0] == before[Least(before, ids)] && sorted[0].id == Least(before, ids)
            && SweptOne(sorted[0], cfg, routes, now) == sorted[0])
  {
    var due, ids := Filter(rs, Due(cfg, routes, now)), DueIds(before, cfg, routes, now);
    forall id | id in ids ensures before[id] in due {
      var j :| 0 <= j < |rs| && rs[j].id == id;
      FilterMember(rs, Due(cfg, routes, now), rs[j]);
    }
    forall r | r in due ensures r.id in ids && before[r.id] == r {
      FilterMember(rs, Due(cfg, routes, now), r);
    }
    if due != [] {
      assert due[0] in due;
      var sorted := Sort(due, BySooner());
      BySoonerTotal();
      SortIsSortedPermutation(due, BySooner());
      SameMembers(sorted, due);
      FirstIsLeast(before, ids, sorted);
      LeastUnique(before, ids, sorted[0].id, Least(before, ids));
    }
  }

  lemma FirstIsLeast(store: Store, ids: set<string>, sorted: seq<Record>)
    requires sorted != [] && Sorted(sorted, BySooner())
    requires forall r :: r in sorted ==> r.id in ids && r.id in store && store[r.id] == r
    requires forall id :: id in ids && id in store ==> store[id] in sorted
    ensures IsLeast(store, ids, sorted[0].id)
  {
    forall j | j in ids && j in store ensures Sooner(sorted[0], store[j]) {
      var k :| 0 <= k < |sorted| && sorted[k] == store[j];
      SoonerOrders(sorted[0], sorted[0], sorted[0]);
      if k > 0 { assert BySooner()(sorted[0], sorted[k]); }
    }
  }

  /** These are the stale records of the store, oldest first, as they are after their lease has ended. */
  ghost predicate Abandons(recovered: seq<Record>, store: Store, cfg: Config, force: bool, now: real) {
    exists rs ::
      (Lists(rs, store, IdOf()) && Sorted(rs, ByAge())
       && recovered == Map(Abandoning(cfg, now), Filter(rs, IsStale(cfg, force, now))))
  }

  class DurableOutbox {
    var store: Store
    const cfg: Config
    /** `uuid5` of transport and idempotency key; nothing is assumed about collisions. */
    const idOf: (string, string) -> string

    ghost predicate Valid()
      reads this
    {
      ConfigOk(cfg) && Keyed(store)
    }

    /** Opening an existing store: recover abandoned leases, then apply the attempt limit. */
    constructor (persisted: Store, cfg: Config, idOf: (string, string) -> string, recover: bool, now: real, later: real)
      requires ConfigOk(cfg) && Keyed(persisted)
      ensures Valid() && this.cfg == cfg && this.idOf == idOf
      ensures store == if recover then Swept(Recovered(persisted, cfg, false, now), cfg, None, later) else persisted
    {
      this.store, this.cfg, this.idOf := persisted, cfg, idOf;
      new;
      if recover {
        var _ := RecoverInflight(false, now);
        EnforceAttemptLimits(later);
      }
    }

    /** A snapshot of the records, oldest first. */
    method Records() returns (rs: seq<Record>)
      requires Valid()
      ensures Lists(rs, store, IdOf()) && Sorted(rs, ByAge())
    {
      rs := ListRows(store, IdOf());
      SortedLists(rs, store);
      rs := Sort(rs, ByAge());
    }

    /** Replacing one record on disk. */
    method Write(r: Record)
      modifies this
      ensures store == old(store)[r.id := r]
    {
      store := store[r.id := r];
    }

    /** Leasing one record. */
    method Claim(r: Record, now: real, lease: string) returns (claimed: Record)
      modifies this
      ensures claimed == Claimed(r, now, lease) && store == old(store)[r.id := claimed]
    {
      claimed := Claimed(r, now, lease);
      Write(claimed);
    }

    method Delete(id: string)
      modifies this
      ensures store == old(store) - {id}
    {
      store := store - {id};
    }

    method Enqueue(e: Envelope, now: real) returns (r: Result<Record>)
      requires Valid()
      modifies this
      ensures Valid()
      ensures match EnqueueIn(old(store), e, idOf(e.transport, e.idempotencyKey), now)
              case Queued(queued) => r == Ok(queued) && store == old(store)[queued.id := queued]
              case Existing(found) => r == Ok(found) && store == old(store)
              case Conflict => r == ValueError && store == old(store)
    {
      var id := idOf(e.transport, e.idempotencyKey);
      if id in store {
        if Request(store[id].envelope) != Request(e) { return ValueError; }
        return Ok(store[id]);
      }
      var queued := Outbox.Fresh(e, id, now);
      store := store[id := queued];
      r := Ok(queued);
    }

    method RecoverInflight(force: bool, now: real) returns (recovered: seq<Record>)
      requires Valid()
      modifies this
      ensures Valid() && store == Recovered(old(store), cfg, force, now)
      ensures Abandons(recovered, old(store), cfg, force, now)
    {
      ghost var before := store;
      var rs := Records();
      var stale := IsStale(cfg, force, now);
      recovered := [];
      for i := 0 to |rs|
        invariant store == Rewritten(before, rs, i, IdOf(), stale, Abandoning(cfg, now))
        invariant recovered == Map(Abandoning(cfg, now), Filter(rs[..i], stale))
      {
        FilterMapStep(rs, i, stale, Abandoning(cfg, now));
        if stale(rs[i]) {
          var updated := Abandoned(rs[i], cfg, now);
          Write(updated);
          recovered := recovered + [updated];
        }
      }
      AllOf(rs);
      RecoveryIsRewriting(before, rs, cfg, force, now);
    }

    method EnforceAttemptLimits(now: real)
      requires Valid()
      modifies this
      ensures Valid() && store == Swept(old(store), cfg, None, now)
    {
      ghost var before := store;
      var rs := Records();
      BuryListed(rs, AtLimit(cfg, None), Burying(cfg, now));
      SweepIsRewriting(before, rs, cfg, None, now);
      SweptKeyed(before, cfg, None, now);
    }

    method BuryListed(rs: seq<Record>, atLimit: Record -> bool, bury: Record -> Record)
      requires forall r :: bury(r).id == r.id
      modifies this
      ensures store == Rewritten(old(store), rs, |rs|, IdOf(), atLimit, bury)
    {
      ghost var before := store;
      for i := 0 to |rs|
        invariant store == Rewritten(before, rs, i, IdOf(), atLimit, bury)
      {
        if atLimit(rs[i]) {
          Write(bury(rs[i]));
        }
      }
    }

    /** Bury what is exhausted, collect what is due, lease the first of it in due order. */
    method ClaimDueTransports(routes: Option<set<string>>, now: real, lease: string) returns (claimed: Option<Record>)
      requires Valid()
      modifies this
      ensures Valid() && (store, claimed) == ClaimDueIn(old(store), cfg, routes, now, lease)
    {
      ghost var before := store;
      var rs := Records();
      var atLimit, isDue := AtLimit(cfg, routes), Due(cfg, routes, now);
      var due: seq<Record> := [];
      for i := 0 to |rs|
        invariant store == Rewritten(before, rs, i, IdOf(), atLimit, Burying(cfg, now))
        invariant due == Filter(rs[..i], isDue)
      {
        var r := rs[i];
        FilterStep(rs, i, isDue);
        if atLimit(r) {
          Write(Buried(r, cfg, now));
        } else if isDue(r) {
          due := due + [r];
        }
      }
      AllOf(rs);
      SweepIsRewriting(before, rs, cfg, routes, now);
      DueListed(cfg, before, rs, routes, now);
      ClaimDueKeyed(before, cfg, routes, now, lease);
      if due == [] { return None; }
      var first := Sort(due, BySooner())[0];
      var leased := Claim(first, now, lease);
      claimed := Some(leased);
    }

    method ClaimId(id: string, now: real, lease: string) returns (claimed: Option<Record>)
      requires Valid()
      modifies this
      ensures Valid() && (store, claimed) == ClaimIdIn(old(store), cfg, id, now, lease)
    {
      if id !in store || !Retryable(store[id]) { return None; }
      if Exhausted(store[id], cfg) {
        Write(Buried(store[id], cfg, now));
        return None;
      }
      if store[id].nextAt.Some? && store[id].nextAt.value > now { return None; }
      var leased := Claim(store[id], now, lease);
      claimed := Some(leased);
    }

    method Settle(claimed: Record, s: Settlement, now: real) returns (r: Result<Record>)
      requires Valid() && claimed.lease.Some?
      modifies this
      ensures Valid()
      ensures match SettleIn(old(store), claimed, cfg, now, s)
              case None => r == Corruption && store == old(store)
              case Some(after) => r == Ok(after.1) && store == after.0
    {
      if claimed.id !in store { return Corruption; }
      var current := store[claimed.id];
      if current.state != Sending || current.lease != claimed.lease { return Ok(current); }
      var settled := Settled(current, cfg, now, s);
      store := store[claimed.id := settled];
      r := Ok(settled);
    }

    method RequeueDeadLetter(id: string, now: real) returns (r: Result<Record>)
      requires Valid()
      modifies this
      ensures Valid()
      ensures if id !in old(store) then r == KeyError && store == old(store)
              else if old(store)[id].state != DeadLetter then r == ValueError && store == old(store)
              else r == Ok(Requeued(old(store)[id], now)) && store == old(store)[id := Requeued(old(store)[id], now)]
    {
      if id !in store { return KeyError; }
      if store[id].state != DeadLetter { return ValueError; }
      r := Ok(Requeued(store[id], now));
      store := store[id := r.value];
    }

    method PurgeAcked(before: Option<real>) returns (removed: nat)
      requires Valid()
      modifies this
      ensures Valid() && store == Purged(old(store), before) && removed == |old(store)| - |store|
    {
      ghost var start := store;
      var p := Purgeable(before);
      var rs := Records();
      removed := 0;
      for i := 0 to |rs|
        invariant store == Deleted(start, rs, i, IdOf(), p)
        invariant removed == |start| - |store|
      {
        if p(rs[i]) {
          DeletedAt(start, rs, i, IdOf(), p);
          Delete(rs[i].id);
          removed := removed + 1;
        }
      }
      PurgeIsDeleting(start, rs, before);
    }

    /** One due delivery by id; the sender's answer is whatever the world says. */
    method DispatchOne(id: string, now: real, w: World) returns (r: Option<Result<Record>>)
      requires Valid()
      modifies this
      ensures Valid()
      ensures var recovered := Recovered(old(store), cfg, false, now);
              var (claimedStore, claimed) := ClaimIdIn(recovered, cfg, id, w.claimAt(0), w.lease(0));
              if claimed.None? then r == None && store == claimedStore
              else
                var settled := Settled(claimed.value, cfg, w.settleAt(0),
                    SettlementOf(w.answer(0), claimed.value.envelope));
                r == Some(Ok(settled)) && store == claimedStore[claimed.value.id := settled]
    {
      var _ := RecoverInflight(false, now);
      var claimed := ClaimId(id, w.claimAt(0), w.lease(0));
      if claimed.None? { return None; }
      var settled := Settle(claimed.value, SettlementOf(w.answer(0), claimed.value.envelope), w.settleAt(0));
      r := Some(settled);
    }

    /** One round of a pass: claim, send, settle. */
    method DispatchRound(routes: Option<set<string>>, i: nat, w: World, ghost p: Pump)
        returns (r: Option<Record>, ghost p': Pump)
      requires Valid() && p.store == store && !p.idle
      modifies this
      ensures Valid() && p' == PumpOne(p, i, cfg, routes, w) && store == p'.store
      ensures match r
              case None => p'.idle && p'.tried == p.tried && p'.results == p.results
              case Some(settled) =>
                (!p'.idle && p'.tried == p.tried + [settled.id] && p'.results == p.results + [settled])
    {
      var claimed := ClaimDueTransports(routes, w.claimAt(i), w.lease(i));
      p' := PumpOne(p, i, cfg, routes, w);
      if claimed.None? { return None, p'; }
      var settled := Settle(claimed.value, SettlementOf(w.answer(i), claimed.value.envelope), w.settleAt(i));
      r := Some(settled.value);
    }

    /** At most `limit` due deliveries of the routed transports, one after the other. */
    method DispatchDue(routes: Option<set<string>>, limit: nat, now: real, w: World)
        returns (settled: seq<Record>, ghost tried: seq<string>)
      requires Valid()
      modifies this
      ensures Valid()
      ensures var p := Pumped(Recovered(old(store), cfg, false, now), limit, Pumping(cfg, routes, w));
              store == p.store && settled == p.results && tried == p.tried
    {
      var _ := RecoverInflight(false, now);
      ghost var start, round := store, Pumping(cfg, routes, w);
      settled, tried := [], [];
      ghost var p := Pump(store, [], [], false);
      var idle := false;
      for i := 0 to limit
        invariant Valid()
        invariant p == Pump(store, tried, settled, idle) == Pumped(start, i, round)
      {
        if !idle {
          var r;
          r, p := DispatchRound(routes, i, w, p);
          tried := p.tried;
          idle := r.None?;
          if r.Some? { settled := settled + [r.value]; }
        }
      }
    }
  }
}
