/**
 * The `POST /incoming` route of backend/src/routes/webhook.js: map the
 * request body to an audit event with `||` defaults, log it through
 * `logAuditEvent` and answer 200 or 500.
 */
module IncomingWebhook {
  import opened JsValue
  import opened AuditStore
  import opened AuditLogger

  /** `x || null` */
  ghost predicate OrNull(stored: Value, given: Value) {
    (Truthy(given) ==> stored == given) && (!Truthy(given) ==> stored == Null)
  }

  /**
   * The event built from `req.body`: the fields are destructured from
   * `req.body || {}`, while the payload falls back to `req.body` itself.
   */
  function EventFromBody(body: Value): (ev: AuditEvent)
    ensures OrNull(ev.userId, Prop(body, "userId"))
    ensures OrNull(ev.entityType, Prop(body, "entityType"))
    ensures OrNull(ev.entityId, Prop(body, "entityId"))
    ensures Truthy(Prop(body, "eventType")) ==> ev.action == Prop(body, "eventType")
    ensures !Truthy(Prop(body, "eventType")) ==> ev.action == Str("unknown_webhook_event")
    ensures Truthy(Prop(body, "data")) ==> ev.payload == Prop(body, "data")
    ensures !Truthy(Prop(body, "data")) ==> ev.payload == body
    ensures ev.source == Str("webhook")
  {
    var fields := Or(body, Obj(map[]));
    AuditEvent(
      userId := Or(Prop(fields, "userId"), Null),
      action := Or(Prop(fields, "eventType"), Str("unknown_webhook_event")),
      entityType := Or(Prop(fields, "entityType"), Null),
      entityId := Or(Prop(fields, "entityId"), Null),
      payload := Or(Prop(fields, "data"), body),
      source := Str("webhook"))
  }

  /**
   * The record the route stores: tagged `webhook`, with a truthy action,
   * null for each falsy reference, and the payload taken from `data`, else
   * from the body, else — when there is no body at all — the logger's `{}`.
   * No field of it is `undefined`.
   */
  lemma IncomingRecord(body: Value, now: int)
    ensures var d := AuditRecord(EventFromBody(body), now);
      && d["source"] == Str("webhook")
      && Truthy(d["action"])
      && (forall k | k in {"userId", "entityType", "entityId"} :: d[k] == Null || d[k] == Prop(body, k))
      && (Truthy(Prop(body, "data")) ==> d["payload"] == Prop(body, "data"))
      && (!Truthy(Prop(body, "data")) && body != Undefined ==> d["payload"] == body)
      && (body == Undefined ==> d["payload"] == Obj(map[]))
      && Undefined !in d.Values
  {
    var ev := EventFromBody(body);
    RecordDefinedUnlessActionOmitted(ev, now);
  }

  const Accepted := Response(200, map["ok" := Bool(true), "message" := Str("Webhook received (placeholder)")])
  const HandlerFailed := Response(500, map["ok" := Bool(false), "error" := Str("Webhook handler failed")])

  /**
   * The route: one `logAuditEvent` call, then 200 on success or 500 when the
   * write fails (`fault`). `now` is the time the logger reads.
   */
  method HandleIncoming(logs: AuditLogs, body: Value, now: int, fault: bool) returns (res: Response)
    modifies logs
    ensures !fault ==> res == Accepted && logs.entries == old(logs.entries) + [AuditRecord(EventFromBody(body), now)]
    ensures fault ==> res == HandlerFailed && logs.entries == old(logs.entries)
  {
    var ok := LogAuditEvent(logs, EventFromBody(body), now, fault);
    if ok {
      res := Accepted;
    } else {
      res := HandlerFailed;
    }
  }
}
