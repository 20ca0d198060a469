/** Outbound envelopes and delivery records: validation, normalisation and their JSON form. */
module Delivery {
  import opened Prelude
  import opened Text

  // ----- JSON ---------------------------------------------------------------------------------

  /**
   * One JSON value as the schemas see it: `Absent` is a missing key, `Blob` holds the JSON text
   * of a value the schemas do not look into.
   */
  datatype Json =
    | Absent | Null | Flag(flag: bool) | Int(num: int) | Float(value: real) | Str(str: string) | Blob(text: string)

  /** `value.get(key, default)` */
  function Get(v: Json, default: Json): Json { if v == Absent then default else v }

  function FromOption(s: Option<string>): Json { if s.Some? then Str(s.value) else Null }

  function FromTime(t: Option<real>): Json { if t.Some? then Float(t.value) else Null }

  function FromInt(n: Option<int>): Json { if n.Some? then Int(n.value) else Null }

  // ----- Field validators; `None` is a ValueError ---------------------------------------------

  const MAX_IDENTIFIER := 256

  function Identifier(v: Json): Option<string> {
    if v.Str? && Strip(v.str) != "" && |Strip(v.str)| <= MAX_IDENTIFIER then Some(Strip(v.str)) else None
  }

  predicate IsIdentifier(s: string) { s != "" && Trimmed(s) && |s| <= MAX_IDENTIFIER }

  lemma IdentifierIsFixed(v: Json, s: string)
    ensures Identifier(v) == Some(s) ==> IsIdentifier(s)
    ensures IsIdentifier(s) ==> Identifier(Str(s)) == Some(s)
  {
    if v.Str? { StripTrims(v.str); }
    if IsIdentifier(s) { TrimmedIsFixed(s); }
  }

  /** An optional field: the outer `None` is an error, the inner one an absent value. */
  function Optional<T>(v: Json, parse: Json -> Option<T>): Option<Option<T>> {
    if v == Null || v == Absent then Some(None) else if parse(v).Some? then Some(parse(v)) else None
  }

  function Timestamp(v: Json): Option<real> {
    if v.Int? && v.num >= 0 then Some(v.num as real)
    else if v.Float? && v.value >= 0.0 then Some(v.value)
    else None
  }

  function Positive(v: Json): Option<int> { if v.Int? && v.num >= 1 then Some(v.num) else None }

  function Natural(v: Json): Option<nat> { if v.Int? && v.num >= 0 then Some(v.num) else None }

  /** `str(value)[:1000]` for the values that reach an error field as text. */
  function Clip(s: string): string { if |s| <= 1000 then s else s[..1000] }

  function ClippedText(v: Json): Option<string> { if v.Str? then Some(Clip(v.str)) else None }

  function AnyText(v: Json): Option<string> { if v.Str? then Some(v.str) else None }

  // ----- Envelopes ------------------------------------------------------------------------------

  datatype Peer = ById(id: int) | ByHandle(handle: string)

  datatype Kind = Media | Message | Notification | Reaction | Reply

  datatype Envelope = Envelope(
    transport: string, peer: Peer, kind: Kind, text: string, replyTo: Option<int>, media: Option<string>,
    correlationId: string, causationId: Option<string>, idempotencyKey: string, owner: Option<int>,
    metadata: string, createdAt: real, envelopeId: string)

  function KindName(k: Kind): string {
    match k
    case Media => "media" case Message => "message" case Notification => "notification"
    case Reaction => "reaction" case Reply => "reply"
  }

  function ParseKind(v: Json): Option<Kind> {
    if Identifier(v).None? then None
    else
      var name := Lower(Identifier(v).value);
      if name == KindName(Media) then Some(Media)
      else if name == KindName(Message) then Some(Message)
      else if name == KindName(Notification) then Some(Notification)
      else if name == KindName(Reaction) then Some(Reaction)
      else if name == KindName(Reply) then Some(Reply)
      else None
  }

  function ParsePeer(v: Json): Option<Peer> {
    if v.Int? && v.num != 0 then Some(ById(v.num))
    else if v.Str? && Strip(v.str) != "" then Some(ByHandle(Strip(v.str)))
    else None
  }

  function PeerJson(p: Peer): Json { match p case ById(n) => Int(n) case ByHandle(h) => Str(h) }

  function ParseTransport(v: Json): Option<string> {
    if Identifier(v).Some? then Some(Lower(Identifier(v).value)) else None
  }

  predicate IsTransport(s: string) { IsIdentifier(s) && Lower(s) == s }

  predicate PeerOk(p: Peer) {
    match p case ById(n) => n != 0 case ByHandle(h) => h != "" && Trimmed(h)
  }

  /** What the kind demands of the other fields. */
  predicate KindFits(kind: Kind, text: string, replyTo: Option<int>, media: Option<string>) {
    && (kind != Media ==> Strip(text) != "")
    && (kind == Media <==> media.Some?)
    && (kind == Reaction || kind == Reply ==> replyTo.Some?)
  }

  function ParseBlob(v: Json): Option<string> { if v.Blob? then Some(v.text) else None }

  /** The JSON object of an envelope, and the untyped arguments of its constructor. */
  datatype EnvelopeJson = EnvelopeJson(
    schemaVersion: Json, envelopeId: Json, correlationId: Json, causationId: Json, idempotencyKey: Json,
        transport: Json,
    peer: Json, kind: Json, text: Json, replyTo: Json, media: Json, owner: Json, metadata: Json, createdAt: Json)

  /** The constructor of an envelope, over untyped arguments. */
  function MakeEnvelope(a: EnvelopeJson): Option<Envelope> {
    var transport, peer, kind := ParseTransport(a.transport), ParsePeer(a.peer),
        ParseKind(Get(a.kind, Str(KindName(Message))));
    var text, replyTo, media := AnyText(Get(a.text, Str(""))), Optional(a.replyTo, Positive),
        Optional(a.media, ParseBlob);
    var envelopeId, correlationId := Identifier(a.envelopeId), Identifier(a.correlationId);
    var causationId, key := Optional(a.causationId, Identifier), Optional(a.idempotencyKey, Identifier);
    var owner, metadata, createdAt := Optional(a.owner, Positive), ParseBlob(Get(a.metadata, Blob("{}"))),
        Timestamp(a.createdAt);
    Assemble(transport, peer, kind, text, replyTo, media, envelopeId, correlationId, causationId, key, owner,
        metadata, createdAt)
  }

  function Assemble(
    transport: Option<string>, peer: Option<Peer>, kind: Option<Kind>, text: Option<string>,
        replyTo: Option<Option<int>>,
    media: Option<Option<string>>, envelopeId: Option<string>, correlationId: Option<string>,
        causationId: Option<Option<string>>,
    key: Option<Option<string>>, owner: Option<Option<int>>, metadata: Option<string>,
        createdAt: Option<real>): Option<Envelope>
  {
    if transport.None? || peer.None? || kind.None? || text.None? || replyTo.None? || media.None? || envelopeId.None?
       || correlationId.None? || causationId.None? || key.None? || owner.None? || metadata.None? || createdAt.None?
       || !KindFits(kind.value, text.value, replyTo.value, media.value)
    then None
    else Some(Envelope(
      transport.value, peer.value, kind.value, text.value, replyTo.value, media.value, correlationId.value,
          causationId.value,
      if key.value.Some? then key.value.value else envelopeId.value,
      owner.value, metadata.value, createdAt.value, envelopeId.value))
  }

  function ToJson(e: Envelope): EnvelopeJson {
    EnvelopeJson(Int(1), Str(e.envelopeId), Str(e.correlationId), FromOption(e.causationId), Str(e.idempotencyKey),
                 Str(e.transport), PeerJson(e.peer), Str(KindName(e.kind)), Str(e.text), FromInt(e.replyTo),
                 if e.media.Some? then Blob(e.media.value) else Null,
                 FromInt(e.owner), Blob(e.metadata), Float(e.createdAt))
  }

  function FromJson(v: EnvelopeJson): Option<Envelope> {
    if v.schemaVersion != Int(1) then None
    else MakeEnvelope(v.(metadata := if v.metadata == Null then Blob("{}") else v.metadata))
  }

  /** What validation guarantees about an envelope, whoever built it. */
  predicate EnvelopeOk(e: Envelope) {
    && IsTransport(e.transport) && PeerOk(e.peer) && KindFits(e.kind, e.text, e.replyTo, e.media)
    && (e.replyTo.Some? ==> e.replyTo.value >= 1) && (e.owner.Some? ==> e.owner.value >= 1)
    && IsIdentifier(e.correlationId) && IsIdentifier(e.idempotencyKey) && IsIdentifier(e.envelopeId)
    && (e.causationId.Some? ==> IsIdentifier(e.causationId.value))
    && e.createdAt >= 0.0
  }

  lemma TransportIsFixed(v: Json, s: string)
    ensures ParseTransport(v) == Some(s) ==> IsTransport(s)
    ensures IsTransport(s) ==> ParseTransport(Str(s)) == Some(s)
  {
    if Identifier(v).Some? {
      var cleaned := Identifier(v).value;
      IdentifierIsFixed(v, cleaned);
      LowerIdempotent(cleaned);
      LowerKeepsTrim(cleaned);
    }
    IdentifierIsFixed(v, s);
  }

  lemma KindNameOk(k: Kind)
    ensures IsTransport(KindName(k))
  {
    var name := KindName(k);
    match k
    case Media => assert name == "media";
    case Message => assert name == "message";
    case Notification => assert name == "notification";
    case Reaction => assert name == "reaction";
    case Reply => assert name == "reply";
  }

  lemma KindIsFixed(k: Kind)
    ensures ParseKind(Str(KindName(k))) == Some(k)
  {
    KindNameOk(k);
    IdentifierIsFixed(Null, KindName(k));
    assert "reply"[0] != "media"[0];
  }

  lemma PeerIsFixed(v: Json, p: Peer)
    ensures ParsePeer(v) == Some(p) ==> PeerOk(p)
    ensures PeerOk(p) ==> ParsePeer(PeerJson(p)) == Some(p)
  {
    if v.Str? { StripTrims(v.str); }
    if p.ByHandle? && PeerOk(p) { TrimmedIsFixed(p.handle); }
  }

  /** Every envelope that can be built is normalised. */
  lemma MadeIsOk(a: EnvelopeJson, e: Envelope)
    requires MakeEnvelope(a) == Some(e)
    ensures EnvelopeOk(e)
  {
    TransportIsFixed(a.transport, e.transport);
    PeerIsFixed(a.peer, e.peer);
    IdentifierIsFixed(a.envelopeId, e.envelopeId);
    IdentifierIsFixed(a.correlationId, e.correlationId);
    IdentifierIsFixed(a.idempotencyKey, e.idempotencyKey);
    if e.causationId.Some? { IdentifierIsFixed(a.causationId, e.causationId.value); }
  }

  lemma OptionalIdentifier(s: Option<string>)
    requires s.Some? ==> IsIdentifier(s.value)
    ensures Optional(FromOption(s), Identifier) == Some(s)
  {
    if s.Some? { IdentifierIsFixed(Null, s.value); }
  }

  lemma OptionalPositive(n: Option<int>)
    requires n.Some? ==> n.value >= 1
    ensures Optional(FromInt(n), Positive) == Some(n)
  {
  }

  /** Each identifying field of a constructed envelope is read back as it was. */
  lemma IdentityFieldsRoundTrip(e: Envelope)
    requires EnvelopeOk(e)
    ensures ParseTransport(Str(e.transport)) == Some(e.transport) && ParsePeer(PeerJson(e.peer)) == Some(e.peer)
    ensures Identifier(Str(e.envelopeId)) == Some(e.envelopeId)
      && Identifier(Str(e.correlationId)) == Some(e.correlationId)
    ensures Identifier(Str(e.idempotencyKey)) == Some(e.idempotencyKey)
    ensures Optional(FromOption(e.causationId), Identifier) == Some(e.causationId)
  {
    TransportIsFixed(Null, e.transport);
    PeerIsFixed(Null, e.peer);
    IdentifierIsFixed(Null, e.envelopeId);
    IdentifierIsFixed(Null, e.correlationId);
    IdentifierIsFixed(Null, e.idempotencyKey);
    OptionalIdentifier(e.causationId);
  }

  /** The fields that name things read back as written. */
  predicate NamesParse(e: Envelope, v: EnvelopeJson) {
    && ParseTransport(v.transport) == Some(e.transport) && ParsePeer(v.peer) == Some(e.peer)
    && Identifier(v.envelopeId) == Some(e.envelopeId) && Identifier(v.correlationId) == Some(e.correlationId)
    && Optional(v.causationId, Identifier) == Some(e.causationId)
    && Optional(v.idempotencyKey, Identifier) == Some(Some(e.idempotencyKey))
  }

  /** So do the others. */
  predicate ContentParses(e: Envelope, v: EnvelopeJson) {
    && ParseKind(Get(v.kind, Str(KindName(Message)))) == Some(e.kind)
    && AnyText(Get(v.text, Str(""))) == Some(e.text) && Optional(v.replyTo, Positive) == Some(e.replyTo)
    && Optional(v.media, ParseBlob) == Some(e.media) && Optional(v.owner, Positive) == Some(e.owner)
    && ParseBlob(Get(v.metadata, Blob("{}"))) == Some(e.metadata) && Timestamp(v.createdAt) == Some(e.createdAt)
  }

  lemma AssembleIsIdentity(e: Envelope, v: EnvelopeJson)
    requires EnvelopeOk(e) && NamesParse(e, v) && ContentParses(e, v)
    ensures MakeEnvelope(v) == Some(e)
  {
  }

  lemma NamesRoundTrip(e: Envelope)
    requires EnvelopeOk(e)
    ensures NamesParse(e, ToJson(e))
  {
    IdentityFieldsRoundTrip(e);
  }

  lemma ContentRoundTrip(e: Envelope)
    requires EnvelopeOk(e)
    ensures ContentParses(e, ToJson(e))
  {
    KindIsFixed(e.kind);
    OptionalPositive(e.owner);
    OptionalPositive(e.replyTo);
  }

  /** Writing a constructed envelope and reading it back is the identity. */
  lemma EnvelopeRoundTrip(e: Envelope)
    requires EnvelopeOk(e)
    ensures FromJson(ToJson(e)) == Some(e)
  {
    NamesRoundTrip(e);
    ContentRoundTrip(e);
    assert ToJson(e).(metadata := ToJson(e).metadata) == ToJson(e);
    AssembleIsIdentity(e, ToJson(e));
  }

  // ----- Transport receipts -------------------------------------------------------------------

  datatype Receipt = Receipt(success: bool, transport: string, correlationId: string, messageId: Option<string>,
      error: Option<string>)

  function MakeReceipt(success: bool, transport: string, correlationId: string, messageId: Option<string>,
      error: Option<string>): Option<Receipt> {
    var t, c := ParseTransport(Str(transport)), Identifier(Str(correlationId));
    if t.None? || c.None? then None
    else Some(Receipt(success, t.value, c.value, messageId, if error.Some? then Some(Clip(error.value)) else None))
  }

  // ----- Delivery records -----------------------------------------------------------------------

  datatype DeliveryState = Pending | Sending | Acked | Failed | DeadLetter

  datatype Record = Record(
    envelope: Envelope, state: DeliveryState, attempts: nat, nextAt: Option<real>, createdAt: real, updatedAt: real,
    sendingAt: Option<real>, ackedAt: Option<real>, lastError: Option<string>, messageId: Option<string>,
    lease: Option<string>, id: string)

  function StateName(s: DeliveryState): string {
    match s
    case Pending => "pending" case Sending => "sending" case Acked => "acked" case Failed => "failed"
    case DeadLetter => "dead_letter"
  }

  function ParseState(v: Json): Option<DeliveryState> {
    if v == Str(StateName(Pending)) then Some(Pending)
    else if v == Str(StateName(Sending)) then Some(Sending)
    else if v == Str(StateName(Acked)) then Some(Acked)
    else if v == Str(StateName(Failed)) then Some(Failed)
    else if v == Str(StateName(DeadLetter)) then Some(DeadLetter)
    else None
  }

  lemma StateIsFixed(s: DeliveryState)
    ensures ParseState(Str(StateName(s))) == Some(s)
  {
    assert "acked"[0] != "pending"[0];
    assert "sending"[0] != "pending"[0];
  }

  /** The fields each state must and must not carry. */
  predicate StateFits(r: Record) {
    match r.state
    case Sending => r.attempts >= 1 && r.sendingAt.Some? && r.lease.Some? && r.nextAt.None? && r.ackedAt.None?
    case Acked => r.attempts >= 1 && r.ackedAt.Some? && r.sendingAt.None? && r.lease.None? && r.nextAt.None?
    case Failed => r.nextAt.Some? && r.sendingAt.None? && r.ackedAt.None? && r.lease.None?
    case DeadLetter => r.attempts >= 1 && r.nextAt.None? && r.sendingAt.None? && r.ackedAt.None? && r.lease.None?
    case Pending => r.sendingAt.None? && r.ackedAt.None? && r.lease.None?
  }

  predicate TimeOk(t: Option<real>) { t.Some? ==> t.value >= 0.0 }

  /** What validation guarantees about a record. */
  predicate RecordOk(r: Record) {
    && EnvelopeOk(r.envelope) && IsIdentifier(r.id) && StateFits(r)
    && 0.0 <= r.createdAt <= r.updatedAt
    && TimeOk(r.nextAt) && TimeOk(r.sendingAt) && TimeOk(r.ackedAt)
    && (r.lastError.Some? ==> |r.lastError.value| <= 1000)
    && (r.lease.Some? ==> IsIdentifier(r.lease.value))
  }

  datatype RecordJson = RecordJson(
    schemaVersion: Json, id: Json, state: Json, attempts: Json, nextAt: Json, createdAt: Json, updatedAt: Json,
    sendingAt: Json, ackedAt: Json, lastError: Json, messageId: Json, lease: Json, envelope: EnvelopeJson)

  /** The constructor of a record, over untyped arguments and an envelope already built. */
  function MakeRecord(a: RecordJson, envelope: Envelope): Option<Record> {
    var state := ParseState(a.state);
    var attempts := Natural(Get(a.attempts, Int(0)));
    var id := Identifier(a.id);
    var nextAt := Optional(a.nextAt, Timestamp);
    var createdAt, updatedAt := Timestamp(a.createdAt), Timestamp(a.updatedAt);
    var sendingAt := Optional(a.sendingAt, Timestamp);
    var ackedAt := Optional(a.ackedAt, Timestamp);
    var lastError := Optional(a.lastError, ClippedText);
    var messageId := Optional(a.messageId, AnyText);
    var lease := Optional(a.lease, Identifier);
    if state.None? || attempts.None? || id.None? || nextAt.None? || createdAt.None? || updatedAt.None?
       || sendingAt.None? || ackedAt.None? || lastError.None? || messageId.None? || lease.None?
    then None
    else
      var r := Record(envelope, state.value, attempts.value, nextAt.value, createdAt.value, updatedAt.value,
                      sendingAt.value, ackedAt.value, lastError.value, messageId.value, lease.value, id.value);
      if r.updatedAt < r.createdAt || !StateFits(r) then None else Some(r)
  }

  function RecordToJson(r: Record): RecordJson {
    RecordJson(Int(1), Str(r.id), Str(StateName(r.state)), Int(r.attempts), FromTime(r.nextAt), Float(r.createdAt),
               Float(r.updatedAt), FromTime(r.sendingAt), FromTime(r.ackedAt), FromOption(r.lastError),
               FromOption(r.messageId), FromOption(r.lease), ToJson(r.envelope))
  }

  function RecordFromJson(v: RecordJson): Option<Record> {
    if v.schemaVersion != Int(1) || FromJson(v.envelope).None? then None
    else MakeRecord(v, FromJson(v.envelope).value)
  }

  /** Whatever is read from disk satisfies the record invariant, or reading fails. */
  lemma LoadedIsOk(v: RecordJson, r: Record)
    requires RecordFromJson(v) == Some(r)
    ensures RecordOk(r)
  {
    MadeIsOk(v.envelope.(metadata := if v.envelope.metadata == Null then Blob("{}") else v.envelope.metadata),
        r.envelope);
    MadeRecordIsOk(v, r.envelope, r);
  }

  lemma MadeRecordIsOk(v: RecordJson, envelope: Envelope, r: Record)
    requires EnvelopeOk(envelope) && MakeRecord(v, envelope) == Some(r)
    ensures RecordOk(r)
  {
    IdentifierIsFixed(v.id, r.id);
    if r.lease.Some? { IdentifierIsFixed(v.lease, r.lease.value); }
  }

  lemma RecordFieldsRoundTrip(r: Record)
    requires RecordOk(r)
    ensures MakeRecord(RecordToJson(r), r.envelope) == Some(r)
  {
    StateIsFixed(r.state);
    IdentifierIsFixed(Null, r.id);
    if r.lease.Some? { IdentifierIsFixed(Null, r.lease.value); }
  }

  /** Persist-then-reload is the identity on records that satisfy the invariant. */
  lemma RecordRoundTrip(r: Record)
    requires RecordOk(r)
    ensures RecordFromJson(RecordToJson(r)) == Some(r)
  {
    EnvelopeRoundTrip(r.envelope);
    RecordFieldsRoundTrip(r);
  }
}
