/**
 * The `POST /webhook` route of backend/routes/webhook.js: a shared-secret
 * gate (`verifyWebhookSecret`) followed by a handler that records the
 * delivery in `auditLogs`.
 */
module LegacyWebhook {
  import opened JsValue
  import opened AuditStore

  /** What the gate does with a request. */
  datatype Gate =
    | SkipVerification  // no secret configured: the handler runs unchecked
    | Reject            // 401, the handler is not reached
    | Pass              // the secret matched: the handler runs

  /**
   * A request as the route reads it. Header names are lower-case, as Node
   * delivers them, so `req.header(name)` is a lookup of the lower-cased name.
   */
  datatype WebhookRequest = WebhookRequest(headers: map<string, string>, body: Value, ip: string)

  const SecretHeader := "x-webhook-secret"

  /** `req.header(name)`: the header's value, or `undefined` (`None`) when it was not sent. */
  function Header(req: WebhookRequest, name: string): (h: Option<string>)
    ensures h.Some? <==> name in req.headers
    ensures h.Some? ==> h.value == req.headers[name]
  {
    if name in req.headers then Some(req.headers[name]) else None
  }

  /**
   * `verifyWebhookSecret`. `incoming` is the `x-webhook-secret` header and
   * `expected` the `WEBHOOK_SECRET` environment variable, `None` when absent.
   */
  function VerifyWebhookSecret(incoming: Option<string>, expected: Option<string>): (g: Gate)
    ensures g == SkipVerification <==> expected == None || expected == Some("")
    ensures g == Reject <==> expected != None && expected != Some("") && incoming != expected
    ensures g == Pass <==> expected != None && expected != Some("") && incoming == expected
  {
    if !Truthy(if expected.Some? then Str(expected.value) else Undefined) then SkipVerification
    else if incoming != expected then Reject
    else Pass
  }

  /** With a secret configured, a request without the header never gets through. */
  lemma MissingHeaderRejected(expected: string)
    requires expected != ""
    ensures VerifyWebhookSecret(None, Some(expected)) == Reject
  {
  }

  const EntryKeys: set<string> := {"source", "eventType", "status", "payload", "headers", "ip", "createdAt"}

  /** The `logEntry` the handler builds from the request. */
  function LogEntry(req: WebhookRequest): (e: Doc)
    ensures e.Keys == EntryKeys
    ensures e["source"] == Str("webhook") && e["status"] == Str("received")
    ensures Truthy(e["eventType"])
    ensures Truthy(Prop(req.body, "type")) ==> e["eventType"] == Prop(req.body, "type")
    ensures !Truthy(Prop(req.body, "type")) ==> e["eventType"] == Str("UNKNOWN")
    ensures Truthy(req.body) ==> e["payload"] == req.body
    ensures !Truthy(req.body) ==> e["payload"] == Obj(map[])
    ensures e["headers"].Obj? && e["headers"].fields.Keys == {"user-agent"}
    ensures var ua := e["headers"].fields["user-agent"];
      if "user-agent" in req.headers && req.headers["user-agent"] != "" then ua == Str(req.headers["user-agent"])
      else ua == Null
    ensures e["ip"] == Str(req.ip) && e["createdAt"] == ServerTimestamp
  {
    var payload := Or(req.body, Obj(map[]));
    var userAgent := Or(if "user-agent" in req.headers then Str(req.headers["user-agent"]) else Undefined, Null);
    map[
      "source" := Str("webhook"),
      "eventType" := Or(Prop(payload, "type"), Str("UNKNOWN")),
      "status" := Str("received"),
      "payload" := payload,
      "headers" := Obj(map["user-agent" := userAgent]),
      "ip" := Str(req.ip),
      "createdAt" := ServerTimestamp
    ]
  }

  const Unauthorized := Response(401, map["error" := Str("Invalid webhook secret")])
  const Received := Response(200, map[
    "ok" := Bool(true), "message" := Str("Webhook received (placeholder)"), "id" := Str("stored")])
  const HandlerFailed := Response(500, map["error" := Str("Internal webhook error")])

  /**
   * The route: the gate, then the handler. `secret` is `WEBHOOK_SECRET`;
   * `fault` stands for an `auditLogs` write the store rejects.
   */
  method PostWebhook(logs: AuditLogs, secret: Option<string>, req: WebhookRequest, fault: bool)
    returns (res: Response)
    modifies logs
    ensures VerifyWebhookSecret(Header(req, SecretHeader), secret) == Reject ==>
      res == Unauthorized && logs.entries == old(logs.entries)
    ensures VerifyWebhookSecret(Header(req, SecretHeader), secret) != Reject && !fault ==>
      res == Received && logs.entries == old(logs.entries) + [LogEntry(req)]
    ensures VerifyWebhookSecret(Header(req, SecretHeader), secret) != Reject && fault ==>
      res == HandlerFailed && logs.entries == old(logs.entries)
  {
    var gate := VerifyWebhookSecret(Header(req, SecretHeader), secret);
    if gate == Reject {
      return Unauthorized;
    }
    var logEntry := LogEntry(req);
    var ok := logs.Add(logEntry, fault);
    if ok {
      res := Received;
    } else {
      res := HandlerFailed;
    }
  }
}
