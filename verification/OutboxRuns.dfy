/** The outbox as a protocol of atomic steps by concurrent workers, over whole runs. */
module OutboxRuns {
  import opened Prelude
  import opened Delivery
  import opened Outbox
  import opened Dispatching

  /** A worker between its claim and its settle, under the lease that keys it. */
  datatype Worker = Worker(claimed: Record, answer: Option<Answer>)

  datatype Sent = Sent(id: string, lease: string, answer: Answer)

  /**
   * `sends`, `lastLease`, `claims` and `accepted` record the history for the statements only:
   * every send with its answer, the lease of the last claim, the claims since the record was
   * queued or requeued, and the accepted sends since it was queued.
   */
  datatype State = State(
    store: Store, workers: map<string, Worker>, used: set<string>, sends: set<Sent>,
    lastLease: map<string, string>, claims: map<string, nat>, accepted: map<string, nat>)

  /** Each event names the configuration of the process that takes the step. */
  datatype Event =
    | Enqueue(e: Envelope, id: string, now: real)
    | ClaimDue(cfg: Config, routes: Option<set<string>>, now: real, lease: string)
    | ClaimId(cfg: Config, id: string, now: real, lease: string)
    | Send(lease: string, answer: Answer)
    | Settle(cfg: Config, lease: string, now: real)
    | Crash(lease: string)
    | Recover(cfg: Config, force: bool, now: real)
    | Enforce(cfg: Config, now: real)
    | Requeue(id: string, now: real)
    | Purge(before: Option<real>)

  predicate EventOk(ev: Event) {
    match ev
    case Enqueue(e, id, now) => EnvelopeOk(e) && IsIdentifier(id) && now >= 0.0
    case ClaimDue(cfg, _, now, lease) => ConfigOk(cfg) && now >= 0.0 && IsIdentifier(lease)
    case ClaimId(cfg, _, now, lease) => ConfigOk(cfg) && now >= 0.0 && IsIdentifier(lease)
    case Settle(cfg, _, now) => ConfigOk(cfg) && now >= 0.0
    case Recover(cfg, _, now) => ConfigOk(cfg) && now >= 0.0
    case Enforce(cfg, now) => ConfigOk(cfg) && now >= 0.0
    case Requeue(_, now) => now >= 0.0
    case _ => true
  }

  const EMPTY := State(map[], map[], {}, {}, map[], map[], map[])

  function Added(s: State, r: Record): State {
    s.(store := s.store[r.id := r], claims := s.claims[r.id := 0], accepted := s.accepted[r.id := 0],
        lastLease := s.lastLease - {r.id})
  }

  /** The claim of a fresh lease, if there was something to claim. */
  function Leased(s: State, store: Store, claimed: Option<Record>, lease: string): State {
    if claimed.None? then s.(store := store)
    else
      var id := claimed.value.id;
      s.(store := store, workers := s.workers[lease := Worker(claimed.value, None)], used := s.used + {lease},
         lastLease := s.lastLease[id := lease], claims := s.claims[id := CountOf(s.claims, id) + 1])
  }

  function CountOf(m: map<string, nat>, id: string): nat { if id in m then m[id] else 0 }

  function Answered(s: State, lease: string, a: Answer): State
    requires lease in s.workers
  {
    var r := s.workers[lease].claimed;
    s.(workers := s.workers[lease := Worker(r, Some(a))], sends := s.sends + {Sent(r.id, lease, a)},
       accepted :=
         if Accepts(a, r.envelope) && r.id in s.accepted then s.accepted[r.id := s.accepted[r.id] + 1] else s.accepted)
  }

  function Finished(s: State, lease: string, cfg: Config, now: real): State
    requires lease in s.workers && s.workers[lease].answer.Some? && s.workers[lease].claimed.lease.Some?
  {
    var r := s.workers[lease].claimed;
    var settled := SettleIn(s.store, r, cfg, now, SettlementOf(s.workers[lease].answer.value, r.envelope));
    s.(store := if settled.Some? then settled.value.0 else s.store, workers := s.workers - {lease})
  }

  function Restarted(s: State, id: string, now: real): State {
    if id in s.store && s.store[id].state == DeadLetter
    then s.(store := s.store[id := Requeued(s.store[id], now)], claims := s.claims[id := 0])
    else s
  }

  function Cleared(s: State, before: Option<real>): State {
    var store := Purged(s.store, before);
    var gone := s.store.Keys - store.Keys;
    s.(store := store, claims := s.claims - gone, accepted := s.accepted - gone, lastLease := s.lastLease - gone)
  }

  /** The state after an event; an event that is not possible changes nothing. */
  ghost function Step(s: State, ev: Event): State {
    match ev
    case Enqueue(e, id, now) =>
      (match EnqueueIn(s.store, e, id, now) case Queued(r) => Added(s, r) case _ => s)
    case ClaimDue(cfg, routes, now, lease) =>
      var (store, claimed) := ClaimDueIn(s.store, cfg, routes, now, lease);
      Leased(s, store, claimed, lease)
    case ClaimId(cfg, id, now, lease) =>
      var (store, claimed) := ClaimIdIn(s.store, cfg, id, now, lease);
      Leased(s, store, claimed, lease)
    case Send(lease, a) => if lease in s.workers && s.workers[lease].answer.None? then Answered(s, lease, a) else s
    case Settle(cfg, lease, now) =>
      if lease in s.workers && s.workers[lease].answer.Some? && s.workers[lease].claimed.lease.Some?
      then Finished(s, lease, cfg, now) else s
    case Crash(lease) => s.(workers := s.workers - {lease})
    case Recover(cfg, force, now) => s.(store := Recovered(s.store, cfg, force, now))
    case Enforce(cfg, now) => s.(store := Swept(s.store, cfg, None, now))
    case Requeue(id, now) => Restarted(s, id, now)
    case Purge(before) => Cleared(s, before)
  }

  /** The lease an event would hand out was never handed out before. */
  predicate FreshLease(s: State, ev: Event) {
    (ev.ClaimDue? ==> ev.lease !in s.used) && (ev.ClaimId? ==> ev.lease !in s.used)
  }

  ghost predicate Next(s: State, ev: Event, s': State) { EventOk(ev) && FreshLease(s, ev) && s' == Step(s, ev) }

  // ----- The invariant ----------------------------------------------------------------------------

  /** The send under the last lease of the record returned a matching success receipt. */
  ghost predicate Proven(s: State, id: string)
    requires id in s.store
  {
    id in s.lastLease && exists a :: ProvenBy(s, id, a)
  }

  ghost predicate ProvenBy(s: State, id: string, a: Answer)
    requires id in s.store && id in s.lastLease
  {
    && Sent(id, s.lastLease[id], a) in s.sends && Accepts(a, s.store[id].envelope)
    && s.store[id].messageId == ReceiptOf(a, s.store[id].envelope).value.messageId
  }

  ghost predicate RecordInv(s: State, id: string)
    requires id in s.store
  {
    var r := s.store[id];
    && r.id == id && id in s.claims && s.claims[id] == r.attempts && id in s.accepted
    && (r.state == Sending ==>
          (r.lease.Some? && r.lease.value in s.used && id in s.lastLease && s.lastLease[id] == r.lease.value))
    && (r.state == Acked ==> Proven(s, id))
  }

  /** A lease that is still current protects exactly the record as it was claimed. */
  ghost predicate WorkerInv(s: State, lease: string)
    requires lease in s.workers
  {
    var w := s.workers[lease];
    && lease in s.used && HeldBy(w.claimed, lease)
    && (w.answer.Some? ==> Sent(w.claimed.id, lease, w.answer.value) in s.sends)
    && (forall id :: id in s.store && HeldBy(s.store[id], lease) ==> s.store[id] == w.claimed)
  }

  ghost predicate Linked(s: State) {
    (forall id :: id in s.store ==> RecordInv(s, id)) && (forall l :: l in s.workers ==> WorkerInv(s, l))
  }

  ghost predicate Inv(s: State) { StoreOk(s.store) && Linked(s) }

  /** A record that a step leaves alone keeps its part of the invariant. */
  lemma RecordKept(s: State, s': State, id: string)
    requires id in s.store && id in s'.store && s'.store[id] == s.store[id] && RecordInv(s, id)
    requires s.sends <= s'.sends && s.used <= s'.used && id in s'.accepted
    requires id in s'.claims && s'.claims[id] == s.claims[id]
    requires id in s.lastLease ==> id in s'.lastLease && s'.lastLease[id] == s.lastLease[id]
    ensures RecordInv(s', id)
  {
    if s.store[id].state == Acked {
      var a :| ProvenBy(s, id, a);
      assert ProvenBy(s', id, a);
    }
  }

  /** So does a worker when no record newly carries its lease. */
  lemma WorkerKept(s: State, s': State, l: string)
    requires l in s.workers && l in s'.workers && s'.workers[l] == s.workers[l] && WorkerInv(s, l)
    requires s.sends <= s'.sends && s.used <= s'.used
    requires forall id :: id in s'.store && HeldBy(s'.store[id], l) ==> id in s.store && s'.store[id] == s.store[id]
    ensures WorkerInv(s', l)
  {
  }

  // ----- Steps that only end leases ------------------------------------------------------------

  /** Recovery and the attempt limit turn records away from retrying or sending, nothing else. */
  predicate Ended(r: Record, r': Record) {
    r' == r
    || (r'.id == r.id && r'.attempts == r.attempts && r.state != Acked && r.state != DeadLetter
        && (r'.state == Failed || r'.state == DeadLetter))
  }

  ghost predicate AllEnded(store: Store, store': Store) {
    store'.Keys == store.Keys && forall id :: id in store ==> Ended(store[id], store'[id])
  }

  lemma EndedKeepsLinks(s: State, store': Store)
    requires Linked(s) && AllEnded(s.store, store')
    ensures Linked(s.(store := store'))
  {
    var s' := s.(store := store');
    forall id | id in store' ensures RecordInv(s', id) {
      assert RecordInv(s, id) && Ended(s.store[id], store'[id]);
      if store'[id] == s.store[id] { RecordKept(s, s', id); }
    }
    forall l | l in s'.workers ensures WorkerInv(s', l) {
      assert forall id :: id in store' && HeldBy(store'[id], l) ==> Ended(s.store[id], store'[id]);
      WorkerKept(s, s', l);
    }
  }

  lemma SweepEnds(store: Store, cfg: Config, routes: Option<set<string>>, now: real)
    ensures AllEnded(store, Swept(store, cfg, routes, now))
  {
  }

  lemma RecoveryEnds(store: Store, cfg: Config, force: bool, now: real)
    ensures AllEnded(store, Recovered(store, cfg, force, now))
  {
  }

  // ----- Leasing, settling and the rest -----------------------------------------------------------

  lemma UnusedUnheld(s: State, lease: string)
    requires Linked(s) && lease !in s.used
    ensures lease !in s.workers && forall id :: id in s.store ==> !HeldBy(s.store[id], lease)
  {
    assert lease in s.workers ==> WorkerInv(s, lease);
    forall id | id in s.store ensures !HeldBy(s.store[id], lease) { assert RecordInv(s, id); }
  }

  /** When one record is replaced, the others keep their part of the invariant. */
  lemma OneChanged(s: State, s': State, id: string)
    requires Linked(s) && s'.store.Keys == s.store.Keys + {id}
    requires forall j :: j in s.store && j != id ==>
      (s'.store[j] == s.store[j] && j in s'.accepted && j in s'.claims && s'.claims[j] == CountOf(s.claims, j)
      && (j in s.lastLease ==> j in s'.lastLease && s'.lastLease[j] == s.lastLease[j]))
    requires s.sends <= s'.sends && s.used <= s'.used && RecordInv(s', id)
    ensures forall j :: j in s'.store ==> RecordInv(s', j)
  {
    forall j | j in s'.store ensures RecordInv(s', j) { if j != id { assert RecordInv(s, j); RecordKept(s, s', j); } }
  }

  lemma LeaseKeepsLinks(s: State, id: string, now: real, lease: string)
    requires Linked(s) && id in s.store && lease !in s.used
    ensures var claimed := Claimed(s.store[id], now, lease);
      Linked(Leased(s, s.store[id := claimed], Some(claimed), lease))
  {
    var claimed := Claimed(s.store[id], now, lease);
    var s' := Leased(s, s.store[id := claimed], Some(claimed), lease);
    UnusedUnheld(s, lease);
    assert RecordInv(s, id);
    OneChanged(s, s', id);
    forall l | l in s'.workers ensures WorkerInv(s', l) { if l in s.workers { WorkerKept(s, s', l); } }
  }

  /** A claim sweeps, and then leases a due record that the sweep left alone. */
  lemma ClaimDueShape(store: Store, cfg: Config, routes: Option<set<string>>, now: real, lease: string)
      returns (id: string)
    ensures var swept, result := Swept(store, cfg, routes, now), ClaimDueIn(store, cfg, routes, now, lease);
      if DueIds(store, cfg, routes, now) == {} then result == (swept, None)
      else
        && id in store && IsDue(store[id], cfg, routes, now) && swept[id] == store[id]
        && result == (swept[id := Claimed(store[id], now, lease)], Some(Claimed(store[id], now, lease)))
  {
    id := "";
    var due := DueIds(store, cfg, routes, now);
    if due != {} {
      id := Least(store, due);
      SweepKeepsDue(store[id], cfg, routes, now);
    }
  }

  lemma ClaimDueKeepsLinks(s: State, cfg: Config, routes: Option<set<string>>, now: real, lease: string)
    requires Linked(s) && lease !in s.used
    ensures var result := ClaimDueIn(s.store, cfg, routes, now, lease); Linked(Leased(s, result.0, result.1, lease))
  {
    var id := ClaimDueShape(s.store, cfg, routes, now, lease);
    var swept := Swept(s.store, cfg, routes, now);
    SweepEnds(s.store, cfg, routes, now);
    EndedKeepsLinks(s, swept);
    if DueIds(s.store, cfg, routes, now) != {} {
      SweptLease(s, swept, id, now, lease);
    }
  }

  lemma SweptLease(s: State, swept: Store, id: string, now: real, lease: string)
    requires Linked(s.(store := swept)) && id in swept && lease !in s.used
    ensures var claimed := Claimed(swept[id], now, lease);
      Linked(Leased(s, swept[id := claimed], Some(claimed), lease))
  {
    var claimed := Claimed(swept[id], now, lease);
    LeaseKeepsLinks(s.(store := swept), id, now, lease);
    assert Leased(s.(store := swept), swept[id := claimed], Some(claimed), lease) ==
      Leased(s, swept[id := claimed], Some(claimed), lease);
  }

  lemma ClaimIdKeepsLinks(s: State, cfg: Config, id: string, now: real, lease: string)
    requires Linked(s) && lease !in s.used
    ensures Linked(Step(s, ClaimId(cfg, id, now, lease)))
  {
    if id in s.store && Retryable(s.store[id]) {
      assert RecordInv(s, id);
      if Exhausted(s.store[id], cfg) {
        EndedKeepsLinks(s, s.store[id := Buried(s.store[id], cfg, now)]);
      } else if DueAt(s.store[id], now) {
        LeaseKeepsLinks(s, id, now, lease);
      }
    }
  }

  lemma SendKeepsLinks(s: State, lease: string, a: Answer)
    requires Linked(s) && lease in s.workers && s.workers[lease].answer.None?
    ensures Linked(Answered(s, lease, a))
  {
    var s' := Answered(s, lease, a);
    assert WorkerInv(s, lease);
    forall id | id in s'.store ensures RecordInv(s', id) { RecordKept(s, s', id); }
    forall l | l in s'.workers ensures WorkerInv(s', l) { if l != lease { WorkerKept(s, s', l); } }
  }

  /** Lease fencing: a settle writes only over the very record it claimed, while that lease is current. */
  lemma SettleShape(s: State, lease: string, cfg: Config, now: real)
    requires Linked(s) && lease in s.workers && s.workers[lease].answer.Some?
    ensures s.workers[lease].claimed.lease == Some(lease)
    ensures var r := s.workers[lease].claimed;
      var settled := Settled(r, cfg, now, SettlementOf(s.workers[lease].answer.value, r.envelope));
      Finished(s, lease, cfg, now) == s.(
        store := if r.id in s.store && s.store[r.id] == r then s.store[r.id := settled] else s.store,
        workers := s.workers - {lease})
  {
    assert WorkerInv(s, lease);
  }

  lemma SettleKeepsLinks(s: State, lease: string, cfg: Config, now: real)
    requires Linked(s) && lease in s.workers && s.workers[lease].answer.Some?
    ensures s.workers[lease].claimed.lease == Some(lease) && Linked(Finished(s, lease, cfg, now))
  {
    SettleShape(s, lease, cfg, now);
    assert WorkerInv(s, lease);
    var r, a := s.workers[lease].claimed, s.workers[lease].answer.value;
    var s' := Finished(s, lease, cfg, now);
    if r.id in s.store && s.store[r.id] == r {
      assert RecordInv(s, r.id);
      assert s'.store[r.id].state == Acked ==> ProvenBy(s', r.id, a);
      OneChanged(s, s', r.id);
    } else {
      forall id | id in s'.store ensures RecordInv(s', id) { RecordKept(s, s', id); }
    }
    forall l | l in s'.workers ensures WorkerInv(s', l) { WorkerKept(s, s', l); }
  }

  lemma EnqueueKeepsLinks(s: State, r: Record)
    requires Linked(s) && r.id !in s.store && r.state == Pending && r.attempts == 0
    ensures Linked(Added(s, r))
  {
    var s' := Added(s, r);
    OneChanged(s, s', r.id);
    forall l | l in s'.workers ensures WorkerInv(s', l) { WorkerKept(s, s', l); }
  }

  lemma RequeueKeepsLinks(s: State, id: string, now: real)
    requires Linked(s)
    ensures Linked(Restarted(s, id, now))
  {
    if id in s.store && s.store[id].state == DeadLetter {
      var s' := Restarted(s, id, now);
      assert RecordInv(s, id);
      OneChanged(s, s', id);
      forall l | l in s'.workers ensures WorkerInv(s', l) { WorkerKept(s, s', l); }
    }
  }

  lemma PurgeKeepsLinks(s: State, before: Option<real>)
    requires Linked(s)
    ensures Linked(Cleared(s, before))
  {
    var s' := Cleared(s, before);
    forall j | j in s'.store ensures RecordInv(s', j) { RecordKept(s, s', j); }
    forall l | l in s'.workers ensures WorkerInv(s', l) { WorkerKept(s, s', l); }
  }

  lemma CrashKeepsLinks(s: State, lease: string)
    requires Linked(s)
    ensures Linked(s.(workers := s.workers - {lease}))
  {
    var s' := s.(workers := s.workers - {lease});
    forall id | id in s'.store ensures RecordInv(s', id) { RecordKept(s, s', id); }
    forall l | l in s'.workers ensures WorkerInv(s', l) { WorkerKept(s, s', l); }
  }

  lemma StepKeepsLinks(s: State, ev: Event, s': State)
    requires Linked(s) && Next(s, ev, s')
    ensures Linked(s')
  {
    match ev
    case Enqueue(e, id, now) => if id !in s.store { EnqueueKeepsLinks(s, Outbox.Fresh(e, id, now)); }
    case ClaimDue(cfg, routes, now, lease) => ClaimDueKeepsLinks(s, cfg, routes, now, lease);
    case ClaimId(cfg, id, now, lease) => ClaimIdKeepsLinks(s, cfg, id, now, lease);
    case Send(lease, a) => if lease in s.workers && s.workers[lease].answer.None? { SendKeepsLinks(s, lease, a); }
    case Settle(cfg, lease, now) =>
      if lease in s.workers && s.workers[lease].answer.Some? { SettleKeepsLinks(s, lease, cfg, now); }
    case Crash(lease) => CrashKeepsLinks(s, lease);
    case Recover(cfg, force, now) =>
      RecoveryEnds(s.store, cfg, force, now);
      EndedKeepsLinks(s, Recovered(s.store, cfg, force, now));
    case Enforce(cfg, now) => SweepEnds(s.store, cfg, None, now); EndedKeepsLinks(s, Swept(s.store, cfg, None, now));
    case Requeue(id, now) => RequeueKeepsLinks(s, id, now);
    case Purge(before) => PurgeKeepsLinks(s, before);
  }

  // ----- Records stay valid and move forward ----------------------------------------------------

  /** Records are valid, keep their identity and request, and never turn back their clock. */
  ghost predicate AllFollow(store: Store, store': Store) {
    && StoreOk(store')
    && forall id :: id in store && id in store' ==> Follows(store[id], store'[id])
  }

  lemma NothingFollows(store: Store)
    requires StoreOk(store)
    ensures AllFollow(store, store)
  {
  }

  lemma OneFollows(store: Store, swept: Store, id: string, r: Record)
    requires AllFollow(store, swept) && id in store && id in swept && Follows(store[id], r) && store[id].id == id
    ensures AllFollow(store, swept[id := r])
  {
  }

  lemma ClaimDueFollows(store: Store, cfg: Config, routes: Option<set<string>>, now: real, lease: string)
    requires StoreOk(store) && ConfigOk(cfg) && now >= 0.0 && IsIdentifier(lease)
    ensures AllFollow(store, ClaimDueIn(store, cfg, routes, now, lease).0)
  {
    SweepFollows(store, cfg, routes, now);
    var id := ClaimDueShape(store, cfg, routes, now, lease);
    if DueIds(store, cfg, routes, now) != {} {
      ClaimFollows(store[id], now, lease);
      OneFollows(store, Swept(store, cfg, routes, now), id, Claimed(store[id], now, lease));
    }
  }

  lemma SweepFollows(store: Store, cfg: Config, routes: Option<set<string>>, now: real)
    requires StoreOk(store) && ConfigOk(cfg) && now >= 0.0
    ensures AllFollow(store, Swept(store, cfg, routes, now))
  {
    SweepOk(store, cfg, routes, now);
    forall id | id in store ensures Follows(store[id], SweptOne(store[id], cfg, routes, now)) {
      if Retryable(store[id]) && Exhausted(store[id], cfg) { BuryFollows(store[id], cfg, now); }
    }
  }

  lemma RecoveryFollows(store: Store, cfg: Config, force: bool, now: real)
    requires StoreOk(store) && ConfigOk(cfg)
    ensures AllFollow(store, Recovered(store, cfg, force, now))
  {
    forall id | id in store ensures Follows(store[id], RecoveredOne(store[id], cfg, force, now)) {
      if store[id].state == Sending { AbandonFollows(store[id], cfg, now); }
    }
  }

  lemma ClaimIdFollows(store: Store, cfg: Config, id: string, now: real, lease: string)
    requires StoreOk(store) && ConfigOk(cfg) && now >= 0.0 && IsIdentifier(lease)
    ensures AllFollow(store, ClaimIdIn(store, cfg, id, now, lease).0)
  {
    NothingFollows(store);
    if id in store && Retryable(store[id]) {
      if Exhausted(store[id], cfg) {
        BuryFollows(store[id], cfg, now);
        OneFollows(store, store, id, Buried(store[id], cfg, now));
      } else {
        ClaimFollows(store[id], now, lease);
        OneFollows(store, store, id, Claimed(store[id], now, lease));
      }
    }
  }

  lemma FinishFollows(s: State, lease: string, cfg: Config, now: real)
    requires Inv(s) && ConfigOk(cfg) && lease in s.workers && s.workers[lease].answer.Some?
    ensures s.workers[lease].claimed.lease == Some(lease) && AllFollow(s.store, Finished(s, lease, cfg, now).store)
  {
    SettleShape(s, lease, cfg, now);
    assert WorkerInv(s, lease);
    var r := s.workers[lease].claimed;
    if r.id in s.store && s.store[r.id] == r {
      SettleFollows(r, cfg, now, SettlementOf(s.workers[lease].answer.value, r.envelope));
    }
  }

  lemma FreshFollows(store: Store, e: Envelope, id: string, now: real)
    requires StoreOk(store) && EnvelopeOk(e) && IsIdentifier(id) && now >= 0.0 && id !in store
    ensures AllFollow(store, store[id := Outbox.Fresh(e, id, now)])
  {
    NothingFollows(store);
  }

  lemma PurgeFollows(store: Store, before: Option<real>)
    requires StoreOk(store)
    ensures AllFollow(store, Purged(store, before))
  {
    NothingFollows(store);
  }

  lemma ClaimMovesForward(s: State, ev: Event, s': State)
    requires Inv(s) && Next(s, ev, s') && (ev.ClaimDue? || ev.ClaimId?)
    ensures AllFollow(s.store, s'.store)
  {
    match ev
    case ClaimDue(cfg, routes, now, lease) => ClaimDueFollows(s.store, cfg, routes, now, lease);
    case ClaimId(cfg, id, now, lease) => ClaimIdFollows(s.store, cfg, id, now, lease);
  }

  lemma UpkeepMovesForward(s: State, ev: Event, s': State)
    requires Inv(s) && Next(s, ev, s') && (ev.Recover? || ev.Enforce? || ev.Purge?)
    ensures AllFollow(s.store, s'.store)
  {
    match ev
    case Recover(cfg, force, now) => RecoveryFollows(s.store, cfg, force, now);
    case Enforce(cfg, now) => SweepFollows(s.store, cfg, None, now);
    case Purge(before) => PurgeFollows(s.store, before);
  }

  lemma QueueingMovesForward(s: State, ev: Event, s': State)
    requires Inv(s) && Next(s, ev, s') && (ev.Requeue? || ev.Enqueue?)
    ensures AllFollow(s.store, s'.store)
  {
    NothingFollows(s.store);
    match ev
    case Enqueue(e, id, now) => if id !in s.store { FreshFollows(s.store, e, id, now); }
    case Requeue(id, now) =>
      if id in s.store && s.store[id].state == DeadLetter {
        RequeueFollows(s.store[id], now);
        OneFollows(s.store, s.store, id, Requeued(s.store[id], now));
      }
  }

  /** Every step builds valid records from valid ones, whatever the clock reads, and none moves back in time. */
  lemma StepMovesForward(s: State, ev: Event, s': State)
    requires Inv(s) && Next(s, ev, s')
    ensures AllFollow(s.store, s'.store)
  {
    match ev
    case ClaimDue(_, _, _, _) => ClaimMovesForward(s, ev, s');
    case ClaimId(_, _, _, _) => ClaimMovesForward(s, ev, s');
    case Send(_, _) => NothingFollows(s.store);
    case Settle(cfg, lease, now) =>
      NothingFollows(s.store);
      if lease in s.workers && s.workers[lease].answer.Some? { FinishFollows(s, lease, cfg, now); }
    case Crash(_) => NothingFollows(s.store);
    case Enqueue(_, _, _) => QueueingMovesForward(s, ev, s');
    case Requeue(_, _) => QueueingMovesForward(s, ev, s');
    case _ => UpkeepMovesForward(s, ev, s');
  }

  /** Every step, by whichever process and at whatever clock reading, keeps the invariant. */
  lemma StepKeepsInv(s: State, ev: Event, s': State)
    requires Inv(s) && Next(s, ev, s')
    ensures Inv(s')
  {
    StepKeepsLinks(s, ev, s');
    StepMovesForward(s, ev, s');
  }

  ghost predicate IsRun(states: seq<State>, events: seq<Event>) {
    && |states| == |events| + 1
    && forall i :: 0 <= i < |events| ==> Next(states[i], events[i], states[i + 1])
  }

  lemma {:induction false} RunKeepsInv(states: seq<State>, events: seq<Event>, n: nat)
    requires IsRun(states, events) && n < |states| && Inv(states[0])
    ensures Inv(states[n])
  {
    if n > 0 {
      RunKeepsInv(states, events, n - 1);
      StepKeepsInv(states[n - 1], events[n - 1], states[n]);
    }
  }

  // ----- Acknowledgement ---------------------------------------------------------------------------

  /**
   * ACK soundness: whatever the workers, recoveries, requeues, purges and restarts do, a record
   * is ACKED only when the send under its last lease returned a success receipt that names the
   * record's transport and operation, and it carries that receipt's message id.
   */
  lemma AckIsSound(states: seq<State>, events: seq<Event>, n: nat, id: string)
    requires IsRun(states, events) && n < |states| && states[0] == EMPTY
    requires id in states[n].store && states[n].store[id].state == Acked
    ensures var s := states[n];
      && id in s.lastLease
      && exists a :: (
        Sent(id, s.lastLease[id], a) in s.sends && Accepts(a, s.store[id].envelope)
        && s.store[id].messageId == ReceiptOf(a, s.store[id].envelope).value.messageId)
  {
    RunKeepsInv(states, events, n);
    assert RecordInv(states[n], id);
    var a :| ProvenBy(states[n], id, a);
  }

  lemma ClaimKeepsAcked(store: Store, cfg: Config, routes: Option<set<string>>, now: real, lease: string, id: string)
    requires id in store && store[id].state == Acked
    ensures var store' := ClaimDueIn(store, cfg, routes, now, lease).0; id in store' && store'[id] == store[id]
  {
    var k := ClaimDueShape(store, cfg, routes, now, lease);
  }

  lemma SettleKeepsAcked(s: State, cfg: Config, lease: string, now: real, id: string)
    requires Linked(s) && lease in s.workers && s.workers[lease].answer.Some? && s.workers[lease].claimed.lease.Some?
    requires id in s.store && s.store[id].state == Acked
    ensures var store' := Finished(s, lease, cfg, now).store; id in store' && store'[id] == s.store[id]
  {
    SettleShape(s, lease, cfg, now);
    assert WorkerInv(s, lease);
  }

  lemma ClaimIdKeepsAcked(store: Store, cfg: Config, k: string, now: real, lease: string, id: string)
    requires id in store && store[id].state == Acked && forall i :: i in store ==> store[i].id == i
    ensures var store' := ClaimIdIn(store, cfg, k, now, lease).0; id in store' && store'[id] == store[id]
  {
  }

  lemma OwnIds(s: State)
    requires Linked(s)
    ensures forall i :: i in s.store ==> s.store[i].id == i
  {
    forall i | i in s.store ensures s.store[i].id == i { assert RecordInv(s, i); }
  }

  lemma EndedKeepsAcked(store: Store, store': Store, id: string)
    requires AllEnded(store, store') && id in store && store[id].state == Acked
    ensures id in store' && store'[id] == store[id]
  {
    assert Ended(store[id], store'[id]);
  }

  /** An ACKED record leaves that state only by being purged. */
  lemma AckedIsFinal(s: State, ev: Event, s': State, id: string)
    requires Linked(s) && Next(s, ev, s') && id in s.store && s.store[id].state == Acked
    ensures if id in s'.store then s'.store[id] == s.store[id] else ev.Purge?
  {
    match ev
    case ClaimDue(cfg, routes, now, lease) => ClaimKeepsAcked(s.store, cfg, routes, now, lease, id);
    case ClaimId(cfg, k, now, lease) =>
      OwnIds(s);
      ClaimIdKeepsAcked(s.store, cfg, k, now, lease, id);
    case Settle(cfg, lease, now) => if s' != s { SettleKeepsAcked(s, cfg, lease, now, id); }
    case Recover(cfg, force, now) =>
      RecoveryEnds(s.store, cfg, force, now);
      EndedKeepsAcked(s.store, s'.store, id);
    case Enforce(cfg, now) =>
      SweepEnds(s.store, cfg, None, now);
      EndedKeepsAcked(s.store, s'.store, id);
    case _ =>
  }

  /** `attempts` counts exactly the claims since the record was queued or last requeued. */
  lemma AttemptsAreClaims(states: seq<State>, events: seq<Event>, n: nat, id: string)
    requires IsRun(states, events) && n < |states| && states[0] == EMPTY && id in states[n].store
    ensures id in states[n].claims && states[n].store[id].attempts == states[n].claims[id]
  {
    RunKeepsInv(states, events, n);
    assert RecordInv(states[n], id);
  }
}
