/** That the outbox does try: what each step makes of a record, field by field, and how often it is tried. */
module OutboxTries {
  import opened Prelude
  import opened Text
  import opened Delivery
  import opened Outbox
  import opened Dispatching
  import Runs = OutboxRuns

  function Later(a: real, b: real): real { if a >= b then a else b }

  // ----- Delays ----------------------------------------------------------------------------------

  /** The first delay is the base, each further one twice the one before, up to the ceiling. */
  lemma DelayExactly(cfg: Config, n: nat)
    requires ConfigOk(cfg)
    ensures RetryDelay(cfg, 0) == RetryDelay(cfg, 1) == cfg.base
    ensures var doubled := 2.0 * RetryDelay(cfg, n + 1);
      RetryDelay(cfg, n + 2) == if doubled <= cfg.ceiling then doubled else cfg.ceiling
  {
    assert Doubled(0) == 1.0 && Doubled(n + 1) == 2.0 * Doubled(n);
    TwiceAsMuch(cfg.base, Doubled(n));
  }

  lemma TwiceAsMuch(k: real, d: real)
    ensures k * (2.0 * d) == 2.0 * (k * d)
  {
  }

  // ----- Settling --------------------------------------------------------------------------------

  /** `r'` differs from `r` in its state of delivery only. */
  predicate SameMessage(r: Record, r': Record) {
    r'.id == r.id && r'.envelope == r.envelope && r'.createdAt == r.createdAt
  }

  /** The id the sender reported, as its answer carries it. */
  function ReportedId(a: Answer): Option<string> {
    match a
    case Receipted(r) => r.messageId
    case Mapping(_, _, _, _, messageId, _) => messageId
    case _ => None
  }

  /**
   * How a delivery ends under its current lease. Accepted, it is acknowledged for good under the id the
   * sender reported. Not accepted, it keeps its attempts; at the limit it is a dead letter, and below it is
   * due again after the delay of its attempts.
   */
  lemma SettledExactly(store: Store, claimed: Record, cfg: Config, now: real, a: Answer)
    requires claimed.lease.Some? && claimed.id in store && store[claimed.id].state == Sending
      && store[claimed.id].lease == claimed.lease && Keyed(store)
    ensures var result := SettleIn(store, claimed, cfg, now, SettlementOf(a, claimed.envelope));
      result.Some?
      && (var r, r', t := store[claimed.id], result.value.1, Later(now, store[claimed.id].updatedAt);
          && result.value.0 == store[claimed.id := r'] && SameMessage(r, r')
          && r'.attempts == r.attempts && r'.updatedAt == t && r'.sendingAt == None && r'.lease == None
          && (if Accepts(a, claimed.envelope) then
                r'.state == Acked && r'.nextAt == None && r'.ackedAt == Some(t) && r'.lastError == None
                && r'.messageId == ReportedId(a)
              else
                && r'.ackedAt == None && r'.messageId == r.messageId
                && r'.lastError.Some? && (a.Raised? ==> r'.lastError == Some(a.message[..Min(1000, |a.message|)]))
                && (if r.attempts >= cfg.maxAttempts then r'.state == DeadLetter && r'.nextAt == None
                    else r'.state == Failed && r'.nextAt == Some(t + RetryDelay(cfg, r.attempts)))))
  {
    if a.Raised? && |a.message| <= 1000 { assert a.message[..|a.message|] == a.message; }
  }

  /** A lease that is not current, or a record that is gone, leaves the store as it is. */
  lemma SettledInVain(store: Store, claimed: Record, cfg: Config, now: real, s: Settlement)
    requires claimed.lease.Some?
    ensures var result := SettleIn(store, claimed, cfg, now, s);
      && (result.None? <==> claimed.id !in store)
      && (claimed.id in store && (store[claimed.id].state != Sending || store[claimed.id].lease != claimed.lease) ==>
            result == Some((store, store[claimed.id])))
  {
  }

  // ----- Recovery, requeueing, burying, purging --------------------------------------------------

  /** An abandoned lease ends: below the limit its record is due at once, at the limit it is a dead letter. */
  predicate EndedAs(r: Record, r': Record, cfg: Config, now: real) {
    var t := Later(now, r.updatedAt);
    && SameMessage(r, r') && r'.attempts == r.attempts && r'.messageId == r.messageId
    && r'.updatedAt == t && r'.sendingAt == None && r'.lease == None
    && (if r.attempts >= cfg.maxAttempts then r'.state == DeadLetter && r'.nextAt == None
        else r'.state == Failed && r'.nextAt == Some(t))
  }

  /** Recovery ends exactly the leases that are a full timeout old, have no start, or are all to end. */
  lemma RecoveredExactly(store: Store, cfg: Config, force: bool, now: real, id: string)
    requires id in store
    ensures var r, store' := store[id], Recovered(store, cfg, force, now);
      && store'.Keys == store.Keys
      && (if r.state == Sending && (force || r.sendingAt.None? || r.sendingAt.value + cfg.timeout <= now)
          then EndedAs(r, store'[id], cfg, now) else store'[id] == r)
  {
  }

  /** Requeueing starts a dead letter over: no attempts, due at once. */
  lemma RequeuedExactly(r: Record, now: real)
    requires RecordOk(r) && r.state == DeadLetter
    ensures var r', t := Requeued(r, now), Later(now, r.updatedAt);
      && SameMessage(r, r') && r'.state == Failed && r'.attempts == 0 && r'.nextAt == Some(t) && r'.updatedAt == t
      && r'.sendingAt == None && r'.ackedAt == None && r'.lease == None && r'.messageId == r.messageId
  {
  }

  /** The attempt limit buries exactly the routed records that wait for a try they no longer have. */
  lemma SweptExactly(store: Store, cfg: Config, routes: Option<set<string>>, now: real, id: string)
    requires id in store
    ensures var r, store' := store[id], Swept(store, cfg, routes, now);
      && store'.Keys == store.Keys
      && (if (r.state == Pending || r.state == Failed) && r.attempts >= cfg.maxAttempts
             && (routes.None? || r.envelope.transport in routes.value)
          then
            var r' := store'[id];
            && SameMessage(r, r') && r'.state == DeadLetter && r'.attempts == r.attempts && r'.nextAt == None
            && r'.updatedAt == Later(now, r.updatedAt) && r'.sendingAt == None && r'.ackedAt == None && r'.lease == None
          else store'[id] == r)
  {
  }

  /** Purging deletes exactly the acknowledged records, or those acknowledged before the deadline. */
  lemma PurgedExactly(store: Store, before: Option<real>, id: string)
    ensures id in Purged(store, before) <==>
      (id in store && !(store[id].state == Acked
         && (before.None? || (store[id].ackedAt.Some? && store[id].ackedAt.value < before.value))))
    ensures id in Purged(store, before) ==> Purged(store, before)[id] == store[id]
  {
  }

  /** Two requests are the same iff they agree in all but their own id, their operation and their time. */
  lemma RequestExactly(a: Envelope, b: Envelope)
    ensures Request(a) == Request(b) <==>
      a == b.(envelopeId := a.envelopeId, correlationId := a.correlationId, createdAt := a.createdAt)
  {
  }

  /** A new record waits for its first try, due at once. */
  lemma QueuedExactly(store: Store, e: Envelope, id: string, now: real)
    requires id !in store
    ensures EnqueueIn(store, e, id, now)
         == Queued(Record(e, Pending, 0, Some(now), now, now, None, None, None, None, None, id))
  {
  }

  // ----- Claiming --------------------------------------------------------------------------------

  /** The record waits for a try, has one left, and its time has come. */
  predicate Ready(r: Record, cfg: Config, now: real) {
    && (r.state == Pending || r.state == Failed) && r.attempts < cfg.maxAttempts
    && (r.nextAt.None? || r.nextAt.value <= now)
  }

  /** What a claim makes of a record: one attempt more, under a lease that begins now. */
  predicate ClaimedAs(r: Record, r': Record, now: real, lease: string) {
    var t := Later(now, r.updatedAt);
    && SameMessage(r, r') && r'.state == Sending && r'.attempts == r.attempts + 1 && r'.nextAt == None
    && r'.updatedAt == t && r'.sendingAt == Some(t) && r'.ackedAt == None && r'.lastError == None
    && r'.lease == Some(lease) && r'.messageId == r.messageId
  }

  /** A claim by id leases the record exactly if it is ready. */
  lemma ClaimIdExactly(store: Store, cfg: Config, id: string, now: real, lease: string)
    requires Keyed(store)
    ensures var (store', claimed) := ClaimIdIn(store, cfg, id, now, lease);
      && (claimed.Some? <==> id in store && Ready(store[id], cfg, now))
      && (claimed.Some? ==> ClaimedAs(store[id], claimed.value, now, lease) && store' == store[id := claimed.value])
  {
  }

  /**
   * A claim of what is due leases a record exactly if one is ready on the routes, and then the one that
   * has been due the longest.
   */
  lemma ClaimDueExactly(store: Store, cfg: Config, routes: Option<set<string>>, now: real, lease: string)
    requires Keyed(store)
    ensures var (store', claimed) := ClaimDueIn(store, cfg, routes, now, lease);
      && (claimed.Some? <==> exists id :: id in store && Ready(store[id], cfg, now) && OnRoute(routes, store[id]))
      && (claimed.Some? ==>
            && claimed.value.id in store && ClaimedAs(store[claimed.value.id], claimed.value, now, lease)
            && Ready(store[claimed.value.id], cfg, now) && OnRoute(routes, store[claimed.value.id])
            && (forall id :: id in store && Ready(store[id], cfg, now) && OnRoute(routes, store[id]) ==>
                  DueSince(store[claimed.value.id]) <= DueSince(store[id]))
            && claimed.value.id in store' && store'[claimed.value.id] == claimed.value)
  {
    var due := DueIds(store, cfg, routes, now);
    assert forall id :: id in due <==> id in store && Ready(store[id], cfg, now) && OnRoute(routes, store[id]);
    if due != {} {
      var id := Least(store, due);
      assert IsLeast(store, due, id);
      forall j | j in due ensures DueSince(store[id]) <= DueSince(store[j]) { assert Sooner(store[id], store[j]); }
    }
  }

  /** Records are listed by age, then id, and tried by the time they have been due since, then in this order. */
  lemma OrdersExactly(a: Record, b: Record)
    ensures Older(a, b) <==> a.createdAt < b.createdAt || (a.createdAt == b.createdAt && LexLe(a.id, b.id))
    ensures Sooner(a, b) <==> DueSince(a) < DueSince(b) || (DueSince(a) == DueSince(b) && Older(a, b))
  {
  }

  predicate OnRoute(routes: Option<set<string>>, r: Record) { routes.None? || r.envelope.transport in routes.value }

  function DueSince(r: Record): real { if r.nextAt.Some? then r.nextAt.value else 0.0 }

  // ----- How often a record is tried -------------------------------------------------------------

  /** `r` was claimed, by its id or as the soonest due record, and its delivery ended as `r'` without success. */
  ghost predicate TriedInVain(r: Record, r': Record, cfg: Config) {
    exists store, routes, byId, claimAt, lease, settleAt, a ::
      FailedTry(store, routes, byId, claimAt, lease, settleAt, a, r, r', cfg)
  }

  ghost predicate FailedTry(store: Store, routes: Option<set<string>>, byId: bool, claimAt: real, lease: string,
      settleAt: real, a: Answer, r: Record, r': Record, cfg: Config) {
    && Keyed(store) && r.id in store && store[r.id] == r && !Accepts(a, r.envelope)
    && var (store1, claimed) := if byId then ClaimIdIn(store, cfg, r.id, claimAt, lease)
                                else ClaimDueIn(store, cfg, routes, claimAt, lease);
       claimed.Some? && claimed.value.id == r.id && claimed.value.lease.Some?
       && (var settled := SettleIn(store1, claimed.value, cfg, settleAt, SettlementOf(a, r.envelope));
           settled.Some? && settled.value.1 == r')
  }

  /** One try in vain: it was ready, and has an attempt more; it waits for the next one, or has none left. */
  lemma TryCounts(r: Record, r': Record, cfg: Config)
    requires TriedInVain(r, r', cfg)
    ensures (r.state == Pending || r.state == Failed) && r.attempts < cfg.maxAttempts
    ensures SameMessage(r, r') && r'.attempts == r.attempts + 1
    ensures r'.state == if r'.attempts >= cfg.maxAttempts then DeadLetter else Failed
  {
    var store, routes, byId, claimAt, lease, settleAt, a :|
      FailedTry(store, routes, byId, claimAt, lease, settleAt, a, r, r', cfg);
    if byId {
      ClaimIdExactly(store, cfg, r.id, claimAt, lease);
      var (store1, claimed) := ClaimIdIn(store, cfg, r.id, claimAt, lease);
      SettledExactly(store1, claimed.value, cfg, settleAt, a);
    } else {
      ClaimDueExactly(store, cfg, routes, claimAt, lease);
      ClaimDueKeyed(store, cfg, routes, claimAt, lease);
      var (store1, claimed) := ClaimDueIn(store, cfg, routes, claimAt, lease);
      SettledExactly(store1, claimed.value, cfg, settleAt, a);
    }
  }

  /** The record after each of a series of tries, all of them in vain. */
  ghost predicate VainTries(rs: seq<Record>, cfg: Config) {
    rs != [] && forall i :: 0 <= i < |rs| - 1 ==> TriedInVain(rs[i], rs[i + 1], cfg)
  }

  /**
   * A record whose sends all fail is tried exactly as often as it has attempts left: each try uses up
   * one, it waits for the next while there is one, and is a dead letter after the last and not before.
   */
  lemma {:induction false} TriedToTheEnd(rs: seq<Record>, cfg: Config, n: nat)
    requires VainTries(rs, cfg) && n < |rs|
    requires (rs[0].state == Pending || rs[0].state == Failed) && rs[0].attempts < cfg.maxAttempts
    ensures n <= cfg.maxAttempts - rs[0].attempts
    ensures rs[n].attempts == rs[0].attempts + n && SameMessage(rs[0], rs[n])
    ensures rs[n].state == DeadLetter <==> n == cfg.maxAttempts - rs[0].attempts
    ensures 0 < n < cfg.maxAttempts - rs[0].attempts ==> rs[n].state == Failed
  {
    if n > 0 {
      TriedToTheEnd(rs, cfg, n - 1);
      TryCounts(rs[n - 1], rs[n], cfg);
    }
  }

  /** And while it has attempts left, it is tried again once its delay is over. */
  lemma AnotherTry(r: Record, r': Record, cfg: Config, store: Store, now: real, lease: string)
    requires TriedInVain(r, r', cfg) && r'.attempts < cfg.maxAttempts
    requires Keyed(store) && r'.id in store && store[r'.id] == r'
    requires r'.nextAt.Some? ==> r'.nextAt.value <= now
    ensures ClaimIdIn(store, cfg, r'.id, now, lease).1.Some? && ClaimDueIn(store, cfg, None, now, lease).1.Some?
  {
    TryCounts(r, r', cfg);
    ClaimIdExactly(store, cfg, r'.id, now, lease);
    ClaimDueExactly(store, cfg, None, now, lease);
    assert Ready(store[r'.id], cfg, now) && OnRoute(None, store[r'.id]);
  }

  // ----- The steps of the protocol ---------------------------------------------------------------

  /** A recovery by any process ends exactly the leases that are stale, or all. */
  lemma RecoverStep(s: Runs.State, cfg: Config, force: bool, now: real, id: string)
    requires id in s.store
    ensures var r, after := s.store[id], Runs.Step(s, Runs.Recover(cfg, force, now)).store;
      id in after
      && if r.state == Sending && (force || r.sendingAt.None? || r.sendingAt.value + cfg.timeout <= now)
         then EndedAs(r, after[id], cfg, now) else after[id] == r
  {
    RecoveredExactly(s.store, cfg, force, now, id);
  }

  /** A new limit buries exactly the records that wait for a try they no longer have. */
  lemma EnforceStep(s: Runs.State, cfg: Config, now: real, id: string)
    requires id in s.store
    ensures var r, after := s.store[id], Runs.Step(s, Runs.Enforce(cfg, now)).store;
      id in after
      && if (r.state == Pending || r.state == Failed) && r.attempts >= cfg.maxAttempts
         then SameMessage(r, after[id]) && after[id].state == DeadLetter && after[id].attempts == r.attempts
         else after[id] == r
  {
    SweptExactly(s.store, cfg, None, now, id);
  }

  /** A requeue starts the dead letter that is named over, and touches no other record. */
  lemma RequeueStep(s: Runs.State, named: string, now: real, id: string)
    requires id in s.store && RecordOk(s.store[id])
    ensures var r, after := s.store[id], Runs.Step(s, Runs.Requeue(named, now)).store;
      id in after
      && if named == id && r.state == DeadLetter
         then SameMessage(r, after[id]) && after[id].state == Failed && after[id].attempts == 0
              && after[id].nextAt == Some(Later(now, r.updatedAt))
         else after[id] == r
  {
    if named == id && s.store[id].state == DeadLetter { RequeuedExactly(s.store[id], now); }
  }

  /** A purge deletes exactly the acknowledged records before the deadline. */
  lemma PurgeStep(s: Runs.State, before: Option<real>, id: string)
    requires id in s.store
    ensures var r, after := s.store[id], Runs.Step(s, Runs.Purge(before)).store;
      && (id !in after <==> r.state == Acked && (before.None? || (r.ackedAt.Some? && r.ackedAt.value < before.value)))
      && (id in after ==> after[id] == r)
  {
    PurgedExactly(s.store, before, id);
  }

  /** A claim of what is due by a worker: if a record on its routes is ready, the worker holds one, and may send it. */
  lemma WorkerGetsWork(s: Runs.State, cfg: Config, routes: Option<set<string>>, now: real, lease: string, id: string)
    requires StoreOk(s.store) && id in s.store && Ready(s.store[id], cfg, now) && OnRoute(routes, s.store[id])
    ensures var s' := Runs.Step(s, Runs.ClaimDue(cfg, routes, now, lease));
      lease in s'.workers && s'.workers[lease].answer.None?
      && (var held := s'.workers[lease].claimed;
          && held.id in s.store && OnRoute(routes, s.store[held.id]) && ClaimedAs(s.store[held.id], held, now, lease)
          && DueSince(s.store[held.id]) <= DueSince(s.store[id])
          && held.id in s'.store && s'.store[held.id] == held)
  {
    ClaimDueExactly(s.store, cfg, routes, now, lease);
  }
}
