/** The order in which due deliveries are claimed, and the dispatch pass built on it. */
module Dispatching {
  import opened Prelude
  import opened Sorting
  import opened Text
  import opened Delivery
  import opened Outbox

  // ----- The order of claims --------------------------------------------------------------------

  function DueKey(r: Record): real { if r.nextAt.Some? then r.nextAt.value else 0.0 }

  predicate Older(a: Record, b: Record) {
    a.createdAt < b.createdAt || (a.createdAt == b.createdAt && LexLe(a.id, b.id))
  }

  /** Earlier due time first, then the older record, then the smaller id. */
  predicate Sooner(a: Record, b: Record) {
    DueKey(a) < DueKey(b) || (DueKey(a) == DueKey(b) && Older(a, b))
  }

  lemma SoonerOrders(a: Record, b: Record, c: Record)
    ensures Sooner(a, b) || Sooner(b, a)
    ensures Sooner(a, b) && Sooner(b, a) ==> a.id == b.id
    ensures Sooner(a, b) && Sooner(b, c) ==> Sooner(a, c)
  {
    LexTotal(a.id, b.id);
    if LexLe(a.id, b.id) && LexLe(b.id, c.id) { LexTransitive(a.id, b.id, c.id); }
  }

  function BySooner(): (Record, Record) -> bool { (a: Record, b: Record) => Sooner(a, b) }

  lemma BySoonerTotal()
    ensures TotalOrder(BySooner())
  {
    forall a: Record, b: Record ensures BySooner()(a, b) || BySooner()(b, a) { SoonerOrders(a, b, a); }
    forall a: Record, b: Record, c: Record | BySooner()(a, b) && BySooner()(b, c)
      ensures BySooner()(a, c)
    {
      SoonerOrders(a, b, c);
    }
  }

  ghost predicate IsLeast(store: Store, ids: set<string>, id: string) {
    id in ids && id in store && forall j :: j in ids && j in store ==> Sooner(store[id], store[j])
  }

  lemma {:induction false} LeastExists(store: Store, ids: set<string>)
    requires ids != {} && ids <= store.Keys
    ensures exists id :: IsLeast(store, ids, id)
    decreases |ids|
  {
    var k :| k in ids;
    SoonerOrders(store[k], store[k], store[k]);
    var rest := ids - {k};
    if rest == {} {
      assert ids == {k};
      assert IsLeast(store, ids, k);
    } else {
      LeastExists(store, rest);
      var m :| IsLeast(store, rest, m);
      SoonerOrders(store[k], store[m], store[m]);
      if Sooner(store[k], store[m]) {
        forall j | j in ids && j in store
          ensures Sooner(store[k], store[j])
        {
          SoonerOrders(store[k], store[m], store[j]);
        }
        assert IsLeast(store, ids, k);
      } else {
        assert IsLeast(store, ids, m);
      }
    }
  }

  lemma LeastUnique(store: Store, ids: set<string>, a: string, b: string)
    requires Keyed(store) && IsLeast(store, ids, a) && IsLeast(store, ids, b)
    ensures a == b
  {
    SoonerOrders(store[a], store[b], store[b]);
  }

  ghost function Least(store: Store, ids: set<string>): (id: string)
    requires ids != {} && ids <= store.Keys
    ensures IsLeast(store, ids, id)
  {
    LeastExists(store, ids);
    var id :| IsLeast(store, ids, id);
    id
  }

  // ----- Claiming -----------------------------------------------------------------------------

  /** Sweep the routed records at the limit, then lease the soonest due one. */
  ghost function ClaimDueIn(store: Store, cfg: Config, routes: Option<set<string>>, now: real,
      lease: string): (Store, Option<Record>) {
    var swept := Swept(store, cfg, routes, now);
    var due := DueIds(store, cfg, routes, now);
    if due == {} then (swept, None)
    else
      var id := Least(store, due);
      var claimed := Claimed(store[id], now, lease);
      (swept[id := claimed], Some(claimed))
  }

  lemma ClaimDueKeyed(store: Store, cfg: Config, routes: Option<set<string>>, now: real, lease: string)
    requires Keyed(store)
    ensures Keyed(ClaimDueIn(store, cfg, routes, now, lease).0)
  {
    assert forall id :: id in store ==> SweptOne(store[id], cfg, routes, now).id == id;
  }

  function ClaimIdIn(store: Store, cfg: Config, id: string, now: real, lease: string): (Store, Option<Record>) {
    if id !in store || !Retryable(store[id]) then (store, None)
    else if Exhausted(store[id], cfg) then (store[id := Buried(store[id], cfg, now)], None)
    else if !DueAt(store[id], now) then (store, None)
    else
      var claimed := Claimed(store[id], now, lease);
      (store[id := claimed], Some(claimed))
  }

  // ----- A dispatch pass ------------------------------------------------------------------------

  /** The clock readings, lease ids and sender answers of one pass, by round. */
  datatype World = World(claimAt: nat -> real, settleAt: nat -> real, lease: nat -> string, answer: nat -> Answer)

  datatype Pump = Pump(store: Store, tried: seq<string>, results: seq<Record>, idle: bool)

  ghost function PumpOne(p: Pump, i: nat, cfg: Config, routes: Option<set<string>>, w: World): Pump {
    if p.idle then p
    else
      var (store, claimed) := ClaimDueIn(p.store, cfg, routes, w.claimAt(i), w.lease(i));
      if claimed.None? then Pump(store, p.tried, p.results, true)
      else
        var settled := SettleIn(store, claimed.value, cfg, w.settleAt(i),
            SettlementOf(w.answer(i), claimed.value.envelope));
        if settled.None? then p else Pump(settled.value.0, p.tried + [claimed.value.id],
            p.results + [settled.value.1], false)
  }

  ghost function Pumping(cfg: Config, routes: Option<set<string>>, w: World): (Pump, nat) -> Pump {
    (p: Pump, i: nat) => PumpOne(p, i, cfg, routes, w)
  }

  /** The pass after `n` rounds. */
  function Pumped(store: Store, n: nat, round: (Pump, nat) -> Pump): Pump {
    if n == 0 then Pump(store, [], [], false) else round(Pumped(store, n - 1, round), n - 1)
  }

  ghost predicate WorldOk(w: World) {
    forall i :: w.claimAt(i) >= 0.0 && w.settleAt(i) >= 0.0 && IsIdentifier(w.lease(i))
  }

  /** The store after one round that claims `id`. */
  function RoundOn(store: Store, id: string, cfg: Config, routes: Option<set<string>>, claimAt: real, lease: string,
      settleAt: real, s: Settlement): Store
    requires id in store
  {
    var claimed := Claimed(store[id], claimAt, lease);
    Swept(store, cfg, routes, claimAt)[id := Settled(claimed, cfg, settleAt, s)]
  }

  function Ending(p: Pump, id: string, i: nat, w: World): Settlement
    requires id in p.store
  {
    SettlementOf(w.answer(i), p.store[id].envelope)
  }

  /** A round of an unfinished pass: either nothing is due, or the soonest due record is tried. */
  lemma RoundShape(p: Pump, i: nat, cfg: Config, routes: Option<set<string>>, w: World)
    requires !p.idle && Keyed(p.store)
    ensures var due := DueIds(p.store, cfg, routes, w.claimAt(i)); var p' := PumpOne(p, i, cfg, routes, w);
      if due == {} then p' == Pump(Swept(p.store, cfg, routes, w.claimAt(i)), p.tried, p.results, true)
      else
        var id := Least(p.store, due);
        var store' := RoundOn(p.store, id, cfg, routes, w.claimAt(i), w.lease(i), w.settleAt(i), Ending(p, id, i, w));
        p' == Pump(store', p.tried + [id], p.results + [store'[id]], false)
  {
    var due := DueIds(p.store, cfg, routes, w.claimAt(i));
    if due != {} {
      var id := Least(p.store, due);
      var claimed := Claimed(p.store[id], w.claimAt(i), w.lease(i));
      var swept := Swept(p.store, cfg, routes, w.claimAt(i));
      assert HeldBy(claimed, w.lease(i)) && claimed.id == id;
      assert swept[id := claimed][id := Settled(claimed, cfg, w.settleAt(i),
          SettlementOf(w.answer(i), claimed.envelope))]
          == RoundOn(p.store, id, cfg, routes, w.claimAt(i), w.lease(i), w.settleAt(i), Ending(p, id, i, w));
    }
  }

  lemma SweepOk(store: Store, cfg: Config, routes: Option<set<string>>, now: real)
    requires StoreOk(store) && ConfigOk(cfg) && now >= 0.0
    ensures StoreOk(Swept(store, cfg, routes, now))
  {
    forall id | id in store
      ensures RecordOk(SweptOne(store[id], cfg, routes, now)) && SweptOne(store[id], cfg, routes, now).id == id
    {
      if Retryable(store[id]) && Exhausted(store[id], cfg) { BuryFollows(store[id], cfg, now); }
    }
  }

  lemma RoundOk(store: Store, id: string, cfg: Config, routes: Option<set<string>>, claimAt: real, lease: string,
      settleAt: real, s: Settlement)
    requires StoreOk(store) && ConfigOk(cfg) && claimAt >= 0.0 && settleAt >= 0.0 && IsIdentifier(lease)
    requires id in DueIds(store, cfg, routes, claimAt)
    ensures StoreOk(RoundOn(store, id, cfg, routes, claimAt, lease, settleAt, s))
  {
    SweepOk(store, cfg, routes, claimAt);
    ClaimFollows(store[id], claimAt, lease);
    SettleFollows(Claimed(store[id], claimAt, lease), cfg, settleAt, s);
  }

  lemma StepOk(p: Pump, p': Pump, i: nat, cfg: Config, routes: Option<set<string>>, w: World)
    requires StoreOk(p.store) && ConfigOk(cfg) && WorldOk(w) && p' == PumpOne(p, i, cfg, routes, w)
    ensures StoreOk(p'.store)
  {
    if !p.idle {
      RoundShape(p, i, cfg, routes, w);
      SweepOk(p.store, cfg, routes, w.claimAt(i));
      var due := DueIds(p.store, cfg, routes, w.claimAt(i));
      if due != {} {
        var id := Least(p.store, due);
        RoundOk(p.store, id, cfg, routes, w.claimAt(i), w.lease(i), w.settleAt(i), Ending(p, id, i, w));
      }
    }
  }

  /** What every round keeps holds after any number of rounds. */
  lemma {:induction false} PumpedKeeps(store: Store, n: nat, round: (Pump, nat) -> Pump, inv: (Pump, nat) -> bool)
    requires inv(Pump(store, [], [], false), 0)
    requires forall p, i: nat :: inv(p, i) ==> inv(round(p, i), i + 1)
    ensures inv(Pumped(store, n, round), n)
  {
    if n > 0 { PumpedKeeps(store, n - 1, round, inv); }
  }

  lemma PumpedOk(store: Store, n: nat, cfg: Config, routes: Option<set<string>>, w: World)
    requires StoreOk(store) && ConfigOk(cfg) && WorldOk(w)
    ensures StoreOk(Pumped(store, n, Pumping(cfg, routes, w)).store)
  {
    var round := Pumping(cfg, routes, w);
    forall p: Pump, i: nat | StoreOk(p.store) ensures StoreOk(round(p, i).store) {
      StepOk(p, round(p, i), i, cfg, routes, w);
    }
    PumpedKeeps(store, n, round, (p: Pump, i: nat) => StoreOk(p.store));
  }

  // ----- One pass in sorted order -----------------------------------------------------------

  /** A round takes the tried record out of the due set and leaves every other due record alone. */
  lemma RoundTakesOne(store: Store, id: string, cfg: Config, routes: Option<set<string>>, now: real, lease: string,
      s: Settlement)
    requires StoreOk(store) && ConfigOk(cfg) && id in DueIds(store, cfg, routes, now)
    ensures var store' := RoundOn(store, id, cfg, routes, now, lease, now, s);
      && DueIds(store', cfg, routes, now) == DueIds(store, cfg, routes, now) - {id}
      && forall j :: j in DueIds(store', cfg, routes, now) ==> store'[j] == store[j]
  {
    var store' := RoundOn(store, id, cfg, routes, now, lease, now, s);
    var claimed := Claimed(store[id], now, lease);
    SettledIsNotDue(claimed, cfg, routes, now, s);
    forall j | j in store && j != id
      ensures IsDue(store'[j], cfg, routes, now) <==> IsDue(store[j], cfg, routes, now)
      ensures IsDue(store[j], cfg, routes, now) ==> store'[j] == store[j]
    {
      SweepKeepsDue(store[j], cfg, routes, now);
    }
  }

  lemma SettledIsNotDue(r: Record, cfg: Config, routes: Option<set<string>>, now: real, s: Settlement)
    requires ConfigOk(cfg) && RMax(now, r.updatedAt) >= now
    ensures !IsDue(Settled(r, cfg, now, s), cfg, routes, now)
  {
    DelayBounds(cfg, r.attempts, r.attempts);
  }

  lemma SweepKeepsDue(r: Record, cfg: Config, routes: Option<set<string>>, now: real)
    ensures IsDue(SweptOne(r, cfg, routes, now), cfg, routes, now) <==> IsDue(r, cfg, routes, now)
    ensures IsDue(r, cfg, routes, now) ==> SweptOne(r, cfg, routes, now) == r
  {
  }

  /** What has been tried so far is the sorted beginning of what was due at the start. */
  ghost predicate SortedSoFar(store: Store, p: Pump, cfg: Config, routes: Option<set<string>>, now: real) {
    var due0, due := DueIds(store, cfg, routes, now), DueIds(p.store, cfg, routes, now);
    && due <= due0
    && (forall j :: j in due ==> p.store[j] == store[j])
    && (forall j :: j in due0 <==> j in due || j in p.tried)
    && (forall i :: 0 <= i < |p.tried| ==> p.tried[i] !in due)
    && (forall i, j :: 0 <= i < j < |p.tried| ==>
      p.tried[i] != p.tried[j] && Sooner(store[p.tried[i]], store[p.tried[j]]))
    && (forall i, j :: 0 <= i < |p.tried| && j in due ==> Sooner(store[p.tried[i]], store[j]))
    && (p.idle ==> due == {})
  }

  lemma SweepLeavesNothingDue(store: Store, cfg: Config, routes: Option<set<string>>, now: real)
    requires DueIds(store, cfg, routes, now) == {}
    ensures DueIds(Swept(store, cfg, routes, now), cfg, routes, now) == {}
  {
    forall j | j in store
      ensures !IsDue(SweptOne(store[j], cfg, routes, now), cfg, routes, now)
    {
      SweepKeepsDue(store[j], cfg, routes, now);
      assert IsDue(store[j], cfg, routes, now) ==> j in DueIds(store, cfg, routes, now);
    }
  }

  lemma TriedGrows(store: Store, p: Pump, p': Pump, id: string, cfg: Config, routes: Option<set<string>>, now: real)
    requires SortedSoFar(store, p, cfg, routes, now)
    requires IsLeast(p.store, DueIds(p.store, cfg, routes, now), id)
    requires DueIds(p'.store, cfg, routes, now) == DueIds(p.store, cfg, routes, now) - {id}
    requires forall j :: j in DueIds(p'.store, cfg, routes, now) ==> p'.store[j] == p.store[j]
    requires p'.tried == p.tried + [id] && !p'.idle
    ensures SortedSoFar(store, p', cfg, routes, now)
  {
    var due0, due, due' := DueIds(store, cfg, routes, now), DueIds(p.store, cfg, routes, now),
        DueIds(p'.store, cfg, routes, now);
    assert forall j :: j in p'.tried <==> j in p.tried || j == id;
    forall i | 0 <= i < |p'.tried|
      ensures p'.tried[i] !in due'
      ensures forall j :: j in due' ==> Sooner(store[p'.tried[i]], store[j])
    {
      if i == |p.tried| {
        assert p'.tried[i] == id && p.store[id] == store[id];
      } else {
        assert p'.tried[i] == p.tried[i];
      }
    }
  }

  lemma RoundKeepsSorted(store: Store, p: Pump, p': Pump, i: nat, cfg: Config, routes: Option<set<string>>, w: World,
      now: real)
    requires StoreOk(store) && StoreOk(p.store) && ConfigOk(cfg) && w.claimAt(i) == now == w.settleAt(i)
    requires SortedSoFar(store, p, cfg, routes, now) && p' == PumpOne(p, i, cfg, routes, w)
    ensures SortedSoFar(store, p', cfg, routes, now)
    ensures |p'.tried| <= |p.tried| + 1 && (p'.idle || |p'.tried| == |p.tried| + 1) && (p.idle ==> p'.idle)
  {
    if !p.idle {
      RoundShape(p, i, cfg, routes, w);
      var due := DueIds(p.store, cfg, routes, now);
      if due == {} {
        SweepLeavesNothingDue(p.store, cfg, routes, now);
      } else {
        var id := Least(p.store, due);
        RoundTakesOne(p.store, id, cfg, routes, now, w.lease(i), Ending(p, id, i, w));
        TriedGrows(store, p, p', id, cfg, routes, now);
      }
    }
  }

  ghost predicate SortedRound(store: Store, p: Pump, i: nat, cfg: Config, routes: Option<set<string>>, now: real) {
    && StoreOk(p.store) && SortedSoFar(store, p, cfg, routes, now)
    && |p.tried| <= i && (p.idle || |p.tried| == i)
  }

  lemma PumpedSorted(store: Store, n: nat, cfg: Config, routes: Option<set<string>>, w: World, now: real)
    requires StoreOk(store) && ConfigOk(cfg) && WorldOk(w)
    requires forall i :: w.claimAt(i) == now == w.settleAt(i)
    ensures SortedRound(store, Pumped(store, n, Pumping(cfg, routes, w)), n, cfg, routes, now)
  {
    var round := Pumping(cfg, routes, w);
    forall p: Pump, i: nat | SortedRound(store, p, i, cfg, routes, now)
      ensures SortedRound(store, round(p, i), i + 1, cfg, routes, now)
    {
      SortedStep(store, p, round(p, i), i, cfg, routes, w, now);
    }
    PumpedKeeps(store, n, round, (p: Pump, i: nat) => SortedRound(store, p, i, cfg, routes, now));
  }

  lemma SortedStep(store: Store, p: Pump, p': Pump, i: nat, cfg: Config, routes: Option<set<string>>, w: World,
      now: real)
    requires StoreOk(store) && ConfigOk(cfg) && WorldOk(w) && w.claimAt(i) == now == w.settleAt(i)
    requires SortedRound(store, p, i, cfg, routes, now) && p' == PumpOne(p, i, cfg, routes, w)
    ensures SortedRound(store, p', i + 1, cfg, routes, now)
  {
    StepOk(p, p', i, cfg, routes, w);
    RoundKeepsSorted(store, p, p', i, cfg, routes, w, now);
  }

  /**
   * With the clock standing still and senders that leave the outbox alone, a pass tries the
   * soonest `limit` due records of its transports, each once and in order, whatever they answer.
   */
  lemma DispatchIsSorted(store: Store, limit: nat, cfg: Config, routes: Option<set<string>>, w: World, now: real)
    requires StoreOk(store) && ConfigOk(cfg) && WorldOk(w)
    requires forall i :: w.claimAt(i) == now == w.settleAt(i)
    ensures var tried, due := Pumped(store, limit, Pumping(cfg, routes, w)).tried, DueIds(store, cfg, routes, now);
      && |tried| == Min(limit, |due|)
      && (forall i :: 0 <= i < |tried| ==> tried[i] in due)
      && (forall i, j :: 0 <= i < j < |tried| ==> tried[i] != tried[j] && Sooner(store[tried[i]], store[tried[j]]))
      && (forall i, j :: 0 <= i < |tried| && j in due && j !in tried ==> Sooner(store[tried[i]], store[j]))
  {
    PumpedSorted(store, limit, cfg, routes, w, now);
    var p := Pumped(store, limit, Pumping(cfg, routes, w));
    var due := DueIds(store, cfg, routes, now);
    var chosen := set j | j in p.tried;
    DistinctCount(p.tried);
    assert chosen <= due;
    Subset(chosen, due);
    if p.idle { assert chosen == due; }
  }

  /** The records of other transports as they were at the start. */
  ghost predicate Untouched(store: Store, p: Pump, routes: Option<set<string>>) {
    && Keyed(p.store)
    && forall id :: id in store && !Routed(routes, store[id]) ==>
      id in p.store && p.store[id] == store[id] && id !in p.tried
  }

  lemma UntouchedStep(store: Store, p: Pump, p': Pump, i: nat, cfg: Config, routes: Option<set<string>>, w: World)
    requires Untouched(store, p, routes) && p' == PumpOne(p, i, cfg, routes, w)
    ensures Untouched(store, p', routes)
  {
    if !p.idle {
      RoundShape(p, i, cfg, routes, w);
      SweepLeavesOthers(p.store, cfg, routes, w.claimAt(i));
      var due := DueIds(p.store, cfg, routes, w.claimAt(i));
      if due != {} {
        var id := Least(p.store, due);
        RoundLeavesOthers(p.store, id, cfg, routes, w.claimAt(i), w.lease(i), w.settleAt(i), Ending(p, id, i, w));
      }
    }
  }

  lemma SweepLeavesOthers(store: Store, cfg: Config, routes: Option<set<string>>, now: real)
    requires Keyed(store)
    ensures Keyed(Swept(store, cfg, routes, now))
    ensures forall id :: id in store && !Routed(routes, store[id]) ==> Swept(store, cfg, routes, now)[id] == store[id]
  {
  }

  lemma RoundLeavesOthers(store: Store, id: string, cfg: Config, routes: Option<set<string>>, claimAt: real,
      lease: string, settleAt: real, s: Settlement)
    requires Keyed(store) && id in DueIds(store, cfg, routes, claimAt)
    ensures Routed(routes, store[id])
    ensures var store' := RoundOn(store, id, cfg, routes, claimAt, lease, settleAt, s);
      Keyed(store') && forall j :: j in store && !Routed(routes, store[j]) ==> j in store' && store'[j] == store[j]
  {
    SweepLeavesOthers(store, cfg, routes, claimAt);
  }

  /** A pass never touches a record of a transport it has no sender for. */
  lemma OtherTransportsUntouched(store: Store, n: nat, cfg: Config, routes: Option<set<string>>, w: World)
    requires Keyed(store)
    ensures var p := Pumped(store, n, Pumping(cfg, routes, w));
      forall id :: id in store && !Routed(routes, store[id]) ==>
        id in p.store && p.store[id] == store[id] && id !in p.tried
  {
    var round := Pumping(cfg, routes, w);
    forall p: Pump, i: nat | Untouched(store, p, routes) ensures Untouched(store, round(p, i), routes) {
      UntouchedStep(store, p, round(p, i), i, cfg, routes, w);
    }
    PumpedKeeps(store, n, round, (p: Pump, i: nat) => Untouched(store, p, routes));
  }
}
