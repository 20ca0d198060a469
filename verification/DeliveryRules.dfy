/** Which envelopes and records are accepted, in the terms of their schemas. */
module DeliveryRules {
  import opened Prelude
  import opened Text
  import opened Delivery

  /** A string of 1 to 256 characters besides the white space around it. */
  predicate Named(v: Json) { v.Str? && 1 <= |Strip(v.str)| <= 256 }

  predicate Missing(v: Json) { v == Null || v == Absent }

  predicate PositiveInt(v: Json) { v.Int? && v.num >= 1 }

  predicate Moment(v: Json) { (v.Int? && v.num >= 0) || (v.Float? && v.value >= 0.0) }

  const KINDS: set<string> := {"media", "message", "notification", "reaction", "reply"}

  /** The kind that is asked for; without one it is a message. */
  function KindAsked(v: Json): string { if v.Str? then Lower(Strip(v.str)) else "message" }

  /** The name of the transport, the peer and all identifiers are there and in order. */
  predicate NamesInOrder(a: EnvelopeJson) {
    && Named(a.transport) && Named(a.envelopeId) && Named(a.correlationId)
    && (Missing(a.causationId) || Named(a.causationId)) && (Missing(a.idempotencyKey) || Named(a.idempotencyKey))
    && ((a.peer.Int? && a.peer.num != 0) || (a.peer.Str? && Strip(a.peer.str) != ""))
  }

  /** So are the other fields, each by itself. */
  predicate FieldsInOrder(a: EnvelopeJson) {
    && (a.kind == Absent || (Named(a.kind) && KindAsked(a.kind) in KINDS))
    && (a.text == Absent || a.text.Str?) && (Missing(a.replyTo) || PositiveInt(a.replyTo))
    && (Missing(a.media) || a.media.Blob?) && (Missing(a.owner) || PositiveInt(a.owner))
    && (a.metadata == Absent || a.metadata.Blob?) && Moment(a.createdAt)
  }

  /** What is sent fits its kind: media and only media has a descriptor, all else says something, and answers answer. */
  predicate ContentFits(a: EnvelopeJson) {
    var kind := KindAsked(a.kind);
    && (kind == "media" <==> a.media.Blob?)
    && (kind != "media" ==> a.text.Str? && Strip(a.text.str) != "")
    && (kind == "reaction" || kind == "reply" ==> PositiveInt(a.replyTo))
  }

  lemma KindParsed(v: Json)
    ensures ParseKind(Get(v, Str(KindName(Message)))).Some? <==> v == Absent || (Named(v) && KindAsked(v) in KINDS)
    ensures ParseKind(Get(v, Str(KindName(Message)))).Some? ==>
      KindName(ParseKind(Get(v, Str(KindName(Message)))).value) == KindAsked(v)
  {
    KindIsFixed(Message);
  }

  lemma NamesParsed(a: EnvelopeJson)
    ensures NamesInOrder(a) <==>
      && ParseTransport(a.transport).Some? && ParsePeer(a.peer).Some? && Identifier(a.envelopeId).Some?
      && Identifier(a.correlationId).Some? && Optional(a.causationId, Identifier).Some?
      && Optional(a.idempotencyKey, Identifier).Some?
  {
  }

  lemma FieldsParsed(a: EnvelopeJson)
    ensures FieldsInOrder(a) <==>
      && ParseKind(Get(a.kind, Str(KindName(Message)))).Some? && AnyText(Get(a.text, Str(""))).Some?
      && Optional(a.replyTo, Positive).Some? && Optional(a.media, ParseBlob).Some?
      && Optional(a.owner, Positive).Some? && ParseBlob(Get(a.metadata, Blob("{}"))).Some?
      && Timestamp(a.createdAt).Some?
  {
    KindParsed(a.kind);
  }

  lemma ContentParsed(a: EnvelopeJson)
    requires FieldsInOrder(a)
    ensures ParseKind(Get(a.kind, Str(KindName(Message)))).Some? && AnyText(Get(a.text, Str(""))).Some?
    ensures Optional(a.replyTo, Positive).Some? && Optional(a.media, ParseBlob).Some?
    ensures ContentFits(a) <==>
      KindFits(ParseKind(Get(a.kind, Str(KindName(Message)))).value, AnyText(Get(a.text, Str(""))).value,
               Optional(a.replyTo, Positive).value, Optional(a.media, ParseBlob).value)
  {
    FieldsParsed(a);
    KindParsed(a.kind);
    KindNames(ParseKind(Get(a.kind, Str(KindName(Message)))).value);
    assert Strip("") == "";
  }

  lemma KindNames(k: Kind)
    ensures KindName(k) == "media" <==> k == Media
    ensures KindName(k) == "reaction" <==> k == Reaction
    ensures KindName(k) == "reply" <==> k == Reply
  {
    assert "reply"[0] != "media"[0] && "message"[1] == 'e' && "media"[2] != "message"[2] && "reaction"[2] != "reply"[2];
    assert "notification"[0] == 'n';
  }

  /** An envelope is built exactly if its names, its fields and its content are in order. */
  lemma MadeExactlyWhen(a: EnvelopeJson)
    ensures MakeEnvelope(a).Some? <==> NamesInOrder(a) && FieldsInOrder(a) && ContentFits(a)
  {
    NamesParsed(a);
    FieldsParsed(a);
    if FieldsInOrder(a) { ContentParsed(a); }
  }

  /** And it says what it was given, but for white space around names and the case of transport and kind. */
  lemma MadeFrom(a: EnvelopeJson, e: Envelope)
    requires MakeEnvelope(a) == Some(e)
    ensures a.transport.Str? && e.transport == Lower(Strip(a.transport.str))
    ensures a.peer.Int? ==> e.peer == ById(a.peer.num)
    ensures a.peer.Str? ==> e.peer == ByHandle(Strip(a.peer.str))
    ensures KindName(e.kind) == KindAsked(a.kind) && e.text == if a.text.Str? then a.text.str else ""
    ensures a.envelopeId.Str? && e.envelopeId == Strip(a.envelopeId.str)
    ensures a.correlationId.Str? && e.correlationId == Strip(a.correlationId.str)
    ensures e.idempotencyKey == if a.idempotencyKey.Str? then Strip(a.idempotencyKey.str) else e.envelopeId
    ensures e.causationId == if a.causationId.Str? then Some(Strip(a.causationId.str)) else None
    ensures e.replyTo == if a.replyTo.Int? then Some(a.replyTo.num) else None
    ensures e.owner == if a.owner.Int? then Some(a.owner.num) else None
  {
    KindParsed(a.kind);
  }

  /**
   * What each state of a record demands: a lease and a start while it is sent, the time of the
   * acknowledgement once it is acknowledged, a due time only while it waits and always after a failure,
   * and an attempt unless it waits.
   */
  lemma StateRules(r: Record)
    ensures StateFits(r) <==>
      && (r.lease.Some? <==> r.state == Sending) && (r.sendingAt.Some? <==> r.state == Sending)
      && (r.ackedAt.Some? <==> r.state == Acked)
      && (r.nextAt.Some? ==> r.state == Pending || r.state == Failed) && (r.state == Failed ==> r.nextAt.Some?)
      && (r.state == Sending || r.state == Acked || r.state == DeadLetter ==> r.attempts >= 1)
  {
  }

  /** The fields of a record are in order, each by itself. */
  predicate RecordFields(a: RecordJson) {
    && a.state in {Str("pending"), Str("sending"), Str("acked"), Str("failed"), Str("dead_letter")}
    && Named(a.id) && (a.attempts == Absent || (a.attempts.Int? && a.attempts.num >= 0))
    && Moment(a.createdAt) && Moment(a.updatedAt)
    && (Missing(a.nextAt) || Moment(a.nextAt)) && (Missing(a.sendingAt) || Moment(a.sendingAt))
    && (Missing(a.ackedAt) || Moment(a.ackedAt))
    && (Missing(a.lastError) || a.lastError.Str?) && (Missing(a.messageId) || a.messageId.Str?)
    && (Missing(a.lease) || Named(a.lease))
  }

  function TimeOf(v: Json): Option<real> {
    if v.Int? then Some(v.num as real) else if v.Float? then Some(v.value) else None
  }

  function TextOf(v: Json): Option<string> { if v.Str? then Some(v.str) else None }

  function StateOf(v: Json): DeliveryState {
    if v == Str("sending") then Sending
    else if v == Str("acked") then Acked
    else if v == Str("failed") then Failed
    else if v == Str("dead_letter") then DeadLetter
    else Pending
  }

  /** The record its fields describe. */
  function RecordOf(a: RecordJson, envelope: Envelope): Record
    requires RecordFields(a)
  {
    Record(envelope, StateOf(a.state), if a.attempts.Int? then a.attempts.num else 0, TimeOf(a.nextAt),
           TimeOf(a.createdAt).value, TimeOf(a.updatedAt).value, TimeOf(a.sendingAt), TimeOf(a.ackedAt),
           if a.lastError.Str? then Some(a.lastError.str[..Min(1000, |a.lastError.str|)]) else None,
           TextOf(a.messageId), if a.lease.Str? then Some(Strip(a.lease.str)) else None, Strip(a.id.str))
  }

  /** The fields of a record are parsed exactly if each is in order. */
  lemma RecordFieldsParsed(a: RecordJson)
    ensures RecordFields(a) <==>
      && ParseState(a.state).Some? && Natural(Get(a.attempts, Int(0))).Some? && Identifier(a.id).Some?
      && Optional(a.nextAt, Timestamp).Some? && Timestamp(a.createdAt).Some? && Timestamp(a.updatedAt).Some?
      && Optional(a.sendingAt, Timestamp).Some? && Optional(a.ackedAt, Timestamp).Some?
      && Optional(a.lastError, ClippedText).Some? && Optional(a.messageId, AnyText).Some?
      && Optional(a.lease, Identifier).Some?
  {
  }

  lemma StateParsed(v: Json)
    requires v in {Str("pending"), Str("sending"), Str("acked"), Str("failed"), Str("dead_letter")}
    ensures ParseState(v) == Some(StateOf(v))
  {
    StateIsFixed(StateOf(v));
    assert v == Str(StateName(StateOf(v)));
  }

  lemma ClippedIs(s: string)
    ensures Clip(s) == s[..Min(1000, |s|)]
  {
    assert |s| <= 1000 ==> s[..|s|] == s;
  }

  /** A record is built, as its fields say, exactly if they and their times are in order and its state allows them. */
  lemma RecordMadeExactly(a: RecordJson, envelope: Envelope)
    ensures MakeRecord(a, envelope) ==
      if RecordFields(a) && RecordOf(a, envelope).createdAt <= RecordOf(a, envelope).updatedAt
         && StateFits(RecordOf(a, envelope))
      then Some(RecordOf(a, envelope)) else None
  {
    RecordFieldsParsed(a);
    if RecordFields(a) {
      StateParsed(a.state);
      if a.lastError.Str? { ClippedIs(a.lastError.str); }
    }
  }
}
