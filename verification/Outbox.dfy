/** The transitions of the durable outbox on one record and on the whole store. */
module Outbox {
  import opened Prelude
  import opened Text
  import opened Delivery

  datatype Config = Config(maxAttempts: nat, base: real, ceiling: real, timeout: real)

  predicate ConfigOk(c: Config) { c.maxAttempts >= 1 && 0.0 < c.base <= c.ceiling && 0.0 < c.timeout }

  // ----- Bounded backoff --------------------------------------------------------------------------

  function Doubled(n: nat): real { if n == 0 then 1.0 else 2.0 * Doubled(n - 1) }

  function RetryDelay(cfg: Config, attempts: nat): real {
    var candidate := cfg.base * Doubled(if attempts >= 1 then attempts - 1 else 0);
    if candidate <= cfg.ceiling then candidate else cfg.ceiling
  }

  lemma {:induction false} DoubledGrows(m: nat, n: nat)
    requires m <= n
    ensures 1.0 <= Doubled(m) <= Doubled(n)
    decreases n
  {
    if n > 0 {
      DoubledGrows(if m == n then m - 1 else m, n - 1);
    }
  }

  lemma Scales(k: real, a: real, b: real)
    requires 0.0 < k && a <= b
    ensures k * a <= k * b
  {
  }

  /** Delays never shrink with the number of attempts and stay between the base and the ceiling. */
  lemma DelayBounds(cfg: Config, m: nat, n: nat)
    requires ConfigOk(cfg) && m <= n
    ensures cfg.base <= RetryDelay(cfg, m) <= RetryDelay(cfg, n) <= cfg.ceiling
  {
    var i, j := if m >= 1 then m - 1 else 0, if n >= 1 then n - 1 else 0;
    DoubledGrows(0, i);
    DoubledGrows(i, j);
    Scales(cfg.base, 1.0, Doubled(i));
    Scales(cfg.base, Doubled(i), Doubled(j));
  }

  // ----- What the sender's answer means --------------------------------------------------------

  datatype Marker = NoMarker | NotBoolean | Says(ok: bool)

  /** Whatever a sender may return; the fields of a mapping are as `str` and `or` leave them. */
  datatype Answer =
    | Raised(message: string)
    | Receipted(receipt: Receipt)
    | Plain(ok: bool)
    | Mapping(success: Marker, okKey: Marker, transport: string, correlationId: string, messageId: Option<string>,
        error: Option<string>)
    | Unknown

  function ReceiptOf(a: Answer, e: Envelope): Option<Receipt> {
    match a
    case Raised(_) => None
    case Unknown => None
    case Receipted(r) => Matching(Some(r), e)
    case Plain(ok) =>
      MakeReceipt(ok, e.transport, e.correlationId, None, if ok then None else Some("transport returned false"))
    case Mapping(success, okKey, transport, correlationId, messageId, error) =>
      var marker := if success.NoMarker? then okKey else success;
      if !marker.Says? then None
      else Matching(MakeReceipt(marker.ok, if transport == "" then e.transport else transport,
                                if correlationId == "" then e.correlationId else correlationId, messageId, error), e)
  }

  /** A receipt counts only when it names the envelope's transport and operation. */
  function Matching(r: Option<Receipt>, e: Envelope): Option<Receipt> {
    if r.Some? && r.value.transport == e.transport && r.value.correlationId == e.correlationId then r else None
  }

  predicate Accepts(a: Answer, e: Envelope) { ReceiptOf(a, e).Some? && ReceiptOf(a, e).value.success }

  predicate Addressed(transport: string, correlationId: string, e: Envelope) {
    && (transport == "" || (Strip(transport) != "" && |Strip(transport)| <= MAX_IDENTIFIER
      && Lower(Strip(transport)) == e.transport))
    && (correlationId == "" || Strip(correlationId) == e.correlationId)
  }

  /** The answers that acknowledge a delivery, in the sender's terms. */
  lemma AcceptsExactly(a: Answer, e: Envelope)
    requires EnvelopeOk(e)
    ensures Accepts(a, e) <==>
      || a == Plain(true)
      || (a.Receipted? && a.receipt.success && a.receipt.transport == e.transport
        && a.receipt.correlationId == e.correlationId)
      || (a.Mapping? && Addressed(a.transport, a.correlationId, e)
          && (a.success == Says(true) || (a.success.NoMarker? && a.okKey == Says(true))))
  {
    TransportIsFixed(Str(e.transport), e.transport);
    IdentifierIsFixed(Str(e.correlationId), e.correlationId);
  }

  /** How a delivery attempt ended. */
  datatype Settlement = Success(messageId: Option<string>) | Failure(message: string)

  function SettlementOf(a: Answer, e: Envelope): Settlement {
    var r := ReceiptOf(a, e);
    if r.None? then Failure(if a.Raised? then a.message else "ValueError")
    else if r.value.success then Success(r.value.messageId)
    else Failure(if r.value.error.Some? && r.value.error.value != "" then r.value.error.value else "transport failed")
  }

  // ----- Transitions of one record ------------------------------------------------------------

  function Fresh(e: Envelope, id: string, now: real): Record {
    Record(e, Pending, 0, Some(now), now, now, None, None, None, None, None, id)
  }

  function Claimed(r: Record, now: real, lease: string): Record {
    var t := RMax(now, r.updatedAt);
    r.(state := Sending, attempts := r.attempts + 1, nextAt := None, updatedAt := t, sendingAt := Some(t),
        ackedAt := None,
       lastError := None, lease := Some(lease))
  }

  function Digits(n: nat): string { if n < 10 then [(n + 48) as char] else Digits(n / 10) + [(n % 10 + 48) as char] }

  function Buried(r: Record, cfg: Config, now: real): Record {
    var note := "attempt limit reached (" + Digits(r.attempts) + "/" + Digits(cfg.maxAttempts) + ")";
    var known := r.lastError.Some? && r.lastError.value != "";
    var detail := if known then note + "; last error: " + r.lastError.value else note;
    r.(state := DeadLetter, nextAt := None, updatedAt := RMax(now, r.updatedAt), sendingAt := None, ackedAt := None,
       lastError := Some(Clip(detail)), lease := None)
  }

  function Settled(r: Record, cfg: Config, now: real, s: Settlement): Record {
    var t := RMax(now, r.updatedAt);
    match s
    case Success(messageId) =>
      r.(state := Acked, nextAt := None, updatedAt := t, sendingAt := None, ackedAt := Some(t), lastError := None,
         messageId := messageId, lease := None)
    case Failure(message) =>
      var exhausted := r.attempts >= cfg.maxAttempts;
      r.(state := if exhausted then DeadLetter else Failed,
         nextAt := if exhausted then None else Some(t + RetryDelay(cfg, r.attempts)),
         updatedAt := t, sendingAt := None, ackedAt := None, lastError := Some(Clip(message)), lease := None)
  }

  function Abandoned(r: Record, cfg: Config, now: real): Record {
    var t := RMax(now, r.updatedAt);
    var exhausted := r.attempts >= cfg.maxAttempts;
    r.(state := if exhausted then DeadLetter else Failed, nextAt := if exhausted then None else Some(t), updatedAt := t,
       sendingAt := None, lastError := Some("recovered interrupted sending lease"), lease := None)
  }

  function Requeued(r: Record, now: real): Record {
    var t := RMax(now, r.updatedAt);
    r.(state := Failed, attempts := 0, nextAt := Some(t), updatedAt := t,
        lastError := Some("operator requeued dead letter"), lease := None)
  }

  predicate Retryable(r: Record) { r.state == Pending || r.state == Failed }

  predicate Exhausted(r: Record, cfg: Config) { r.attempts >= cfg.maxAttempts }

  predicate DueAt(r: Record, now: real) { r.nextAt.None? || r.nextAt.value <= now }

  predicate Stale(r: Record, cfg: Config, force: bool, now: real) {
    r.state == Sending && (force || r.sendingAt.None? || r.sendingAt.value <= now - cfg.timeout)
  }

  predicate HeldBy(r: Record, lease: string) { r.state == Sending && r.lease == Some(lease) }

  /** A transition keeps the record valid, its identity and request, and never turns back its clock. */
  ghost predicate Follows(r: Record, r': Record) {
    && RecordOk(r')
    && r'.id == r.id && r'.envelope == r.envelope && r'.createdAt == r.createdAt && r'.updatedAt >= r.updatedAt
  }

  lemma ClaimFollows(r: Record, now: real, lease: string)
    requires RecordOk(r) && Retryable(r) && IsIdentifier(lease)
    ensures Follows(r, Claimed(r, now, lease))
  {
  }

  lemma BuryFollows(r: Record, cfg: Config, now: real)
    requires RecordOk(r) && Retryable(r) && ConfigOk(cfg) && Exhausted(r, cfg)
    ensures Follows(r, Buried(r, cfg, now))
  {
  }

  lemma SettleFollows(r: Record, cfg: Config, now: real, s: Settlement)
    requires RecordOk(r) && r.state == Sending && ConfigOk(cfg)
    ensures Follows(r, Settled(r, cfg, now, s))
  {
    DelayBounds(cfg, r.attempts, r.attempts);
  }

  lemma AbandonFollows(r: Record, cfg: Config, now: real)
    requires RecordOk(r) && r.state == Sending && ConfigOk(cfg)
    ensures Follows(r, Abandoned(r, cfg, now))
  {
  }

  lemma RequeueFollows(r: Record, now: real)
    requires RecordOk(r) && r.state == DeadLetter
    ensures Follows(r, Requeued(r, now))
  {
  }

  /** Every transition builds a valid successor, whatever the clock reads. */
  lemma TransitionsFollow(r: Record, cfg: Config, now: real, lease: string, s: Settlement)
    requires RecordOk(r) && ConfigOk(cfg) && IsIdentifier(lease)
    ensures Retryable(r) ==> Follows(r, Claimed(r, now, lease))
    ensures Retryable(r) && Exhausted(r, cfg) ==> Follows(r, Buried(r, cfg, now))
    ensures r.state == Sending ==> Follows(r, Settled(r, cfg, now, s)) && Follows(r, Abandoned(r, cfg, now))
    ensures r.state == DeadLetter ==> Follows(r, Requeued(r, now))
  {
    DelayBounds(cfg, r.attempts, r.attempts);
  }

  // ----- Operations on the store --------------------------------------------------------------

  type Store = map<string, Record>

  /** Every record is filed under its own id. */
  ghost predicate Keyed(store: Store) { forall id :: id in store ==> store[id].id == id }

  /** Every record is valid and filed under its own id. */
  ghost predicate StoreOk(store: Store) {
    forall id :: id in store ==> RecordOk(store[id]) && store[id].id == id
  }

  predicate Routed(routes: Option<set<string>>, r: Record) { routes.None? || r.envelope.transport in routes.value }

  function SweptOne(r: Record, cfg: Config, routes: Option<set<string>>, now: real): Record {
    if Retryable(r) && Routed(routes, r) && Exhausted(r, cfg) then Buried(r, cfg, now) else r
  }

  function RecoveredOne(r: Record, cfg: Config, force: bool, now: real): Record {
    if Stale(r, cfg, force, now) then Abandoned(r, cfg, now) else r
  }

  /** Retryable records at the attempt limit become dead letters. */
  function Swept(store: Store, cfg: Config, routes: Option<set<string>>, now: real): Store {
    map id | id in store :: SweptOne(store[id], cfg, routes, now)
  }

  /** Abandoned leases become retryable again, or dead letters at the limit. */
  function Recovered(store: Store, cfg: Config, force: bool, now: real): Store {
    map id | id in store :: RecoveredOne(store[id], cfg, force, now)
  }

  predicate IsDue(r: Record, cfg: Config, routes: Option<set<string>>, now: real) {
    Retryable(r) && Routed(routes, r) && !Exhausted(r, cfg) && DueAt(r, now)
  }

  function DueIds(store: Store, cfg: Config, routes: Option<set<string>>, now: real): set<string> {
    set id | id in store && IsDue(store[id], cfg, routes, now)
  }

  function Purged(store: Store, before: Option<real>): Store {
    map id | id in store
      && !(store[id].state == Acked && (before.None?
        || (store[id].ackedAt.Some? && store[id].ackedAt.value < before.value)))
      :: store[id]
  }

  /** `None` when the delivery vanished; otherwise the store and the record the caller gets back. */
  function SettleIn(store: Store, claimed: Record, cfg: Config, now: real, s: Settlement): Option<(Store, Record)>
    requires claimed.lease.Some?
  {
    if claimed.id !in store then None
    else
      var current := store[claimed.id];
      if !HeldBy(current, claimed.lease.value) then Some((store, current))
      else
        var settled := Settled(current, cfg, now, s);
        Some((store[claimed.id := settled], settled))
  }

  // ----- Which request an id is bound to ------------------------------------------------------

  /** The request without the fields that change on a retry of the caller. */
  function Request(e: Envelope): Envelope {
    e.(envelopeId := "", correlationId := "", createdAt := 0.0)
  }

  datatype Enqueueing = Queued(record: Record) | Existing(found: Record) | Conflict

  function EnqueueIn(store: Store, e: Envelope, id: string, now: real): Enqueueing {
    if id !in store then Queued(Fresh(e, id, now))
    else if Request(store[id].envelope) == Request(e) then Existing(store[id])
    else Conflict
  }

  /** Even if two keys collide on one id, nobody is handed a delivery of a different request. */
  lemma EnqueueBindsOneRequest(store: Store, a: Envelope, b: Envelope, id: string, now: real, later: real)
    requires StoreOk(store) && EnvelopeOk(a) && IsIdentifier(id) && now >= 0.0
    ensures var first := EnqueueIn(store, a, id, now);
      && (first.Queued? ==>
            var store' := store[id := first.record];
            && StoreOk(store')
            && (EnqueueIn(store', b, id, later).Existing? <==> Request(a) == Request(b))
            && !EnqueueIn(store', b, id, later).Queued?)
      && (first.Existing? ==>
            first.found.envelope.idempotencyKey == a.idempotencyKey && first.found.envelope.transport == a.transport
            && first.found.envelope.peer == a.peer && first.found.envelope.text == a.text
              && first.found.envelope.kind == a.kind)
  {
    assert Request(a).peer == a.peer && Request(a).text == a.text && Request(a).kind == a.kind;
  }
}
