/**
 * `logAuditEvent` of backend/src/utils/auditLogger.js: fill the omitted
 * fields of an audit event with their defaults, stamp it with the call time
 * and add it to `auditLogs`.
 */
module AuditLogger {
  import opened JsValue
  import opened AuditStore

  /**
   * The argument object of `logAuditEvent`. A field holding `Undefined` is
   * an omitted one; `Null` is an explicit `null`.
   */
  datatype AuditEvent = AuditEvent(
    userId: Value, action: Value, entityType: Value, entityId: Value, payload: Value, source: Value)

  const RecordKeys: set<string> := {"userId", "action", "entityType", "entityId", "payload", "source", "createdAt"}

  /** A supplied value is kept as given; an omitted one becomes `dflt`. */
  ghost predicate Defaulted(stored: Value, given: Value, dflt: Value) {
    (given != Undefined ==> stored == given) && (given == Undefined ==> stored == dflt)
  }

  /**
   * The audit document written for `ev` at time `now`: `userId`,
   * `entityType` and `entityId` default to `null`, `payload` to `{}` and
   * `source` to `"api"`, only when omitted; `action` is copied as is.
   */
  function AuditRecord(ev: AuditEvent, now: int): (d: Doc)
    ensures d.Keys == RecordKeys
    ensures Defaulted(d["userId"], ev.userId, Null)
    ensures Defaulted(d["entityType"], ev.entityType, Null)
    ensures Defaulted(d["entityId"], ev.entityId, Null)
    ensures Defaulted(d["payload"], ev.payload, Obj(map[]))
    ensures Defaulted(d["source"], ev.source, Str("api"))
    ensures d["action"] == ev.action
    ensures d["createdAt"] == Timestamp(now)
  {
    map[
      "userId" := WithDefault(ev.userId, Null),
      "action" := ev.action,
      "entityType" := WithDefault(ev.entityType, Null),
      "entityId" := WithDefault(ev.entityId, Null),
      "payload" := WithDefault(ev.payload, Obj(map[])),
      "source" := WithDefault(ev.source, Str("api")),
      "createdAt" := Timestamp(now)
    ]
  }

  /** Only `action` can leave an `undefined` in the record: every other field has a default. */
  lemma RecordDefinedUnlessActionOmitted(ev: AuditEvent, now: int)
    ensures forall k | k in AuditRecord(ev, now) && k != "action" :: AuditRecord(ev, now)[k] != Undefined
    ensures ev.action != Undefined ==> Undefined !in AuditRecord(ev, now).Values
  {
    var d := AuditRecord(ev, now);
    forall k | k in d && k != "action" ensures d[k] != Undefined {
    }
    if ev.action != Undefined {
      forall v | v in d.Values ensures v != Undefined {
        var k :| k in d && d[k] == v;
      }
    }
  }

  /**
   * `logAuditEvent(ev)` at time `now`: exactly one record is added and the
   * existing ones are untouched; `fault` stands for a write the store
   * rejects, which the function passes on to its caller as a failure.
   */
  method LogAuditEvent(logs: AuditLogs, ev: AuditEvent, now: int, fault: bool) returns (ok: bool)
    modifies logs
    ensures ok == !fault
    ensures ok ==> logs.entries == old(logs.entries) + [AuditRecord(ev, now)]
    ensures !ok ==> logs.entries == old(logs.entries)
  {
    var doc := AuditRecord(ev, now);
    ok := logs.Add(doc, fault);
  }
}
